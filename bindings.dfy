/** The argument splitting at the top of `Start` in mobile/bindings.go: the
    single extra-arguments string is cut at every "--", empty pieces are
    dropped, each remaining piece gets its "--" back and is trimmed, and the
    result is appended to the process arguments. Strings are sequences of
    characters. */
module MobileBindings {

  /** `unicode.IsSpace`: the Latin-1 spaces and the other Unicode White_Space characters. */
  predicate IsSpace(c: char) {
    || c == '\t' || c == '\n' || c == '\U{000B}' || c == '\U{000C}' || c == '\r' || c == ' '
    || c == '\U{0085}' || c == '\U{00A0}' || c == '\U{1680}'
    || ('\U{2000}' <= c <= '\U{200A}')
    || c == '\U{2028}' || c == '\U{2029}' || c == '\U{202F}' || c == '\U{205F}' || c == '\U{3000}'
  }

  /** `s` holds the separator "--" somewhere. */
  predicate HasSeparator(s: string) {
    exists i :: 0 <= i < |s| - 1 && s[i] == '-' && s[i + 1] == '-'
  }

  /** `strings.Split(s, "--")`: cut at each leftmost, non-overlapping "--". The
      empty string gives one empty piece. */
  function Split(s: string): (pieces: seq<string>)
    ensures |pieces| >= 1
    decreases |s|
  {
    if |s| < 2 then [s]
    else if s[0] == '-' && s[1] == '-' then [""] + Split(s[2..])
    else
      var rest := Split(s[1..]);
      [[s[0]] + rest[0]] + rest[1..]
  }

  /** `strings.Join(pieces, "--")`. */
  function Join(pieces: seq<string>): string
    requires |pieces| >= 1
    decreases |pieces|
  {
    if |pieces| == 1 then pieces[0] else pieces[0] + "--" + Join(pieces[1..])
  }

  /** The first piece is where `s` starts. */
  lemma {:induction false} SplitFirstIsPrefix(s: string)
    ensures Split(s)[0] <= s
    decreases |s|
  {
    if |s| >= 2 && !(s[0] == '-' && s[1] == '-') {
      SplitFirstIsPrefix(s[1..]);
      assert s == [s[0]] + s[1..];
    }
  }

  /** Joining the pieces with "--" gives back the string: nothing is lost or added. */
  lemma {:induction false} JoinSplit(s: string)
    ensures Join(Split(s)) == s
    decreases |s|
  {
    if |s| >= 2 {
      if s[0] == '-' && s[1] == '-' {
        JoinSplit(s[2..]);
        assert Split(s)[1..] == Split(s[2..]);
        assert s == "--" + s[2..];
      } else {
        var rest := Split(s[1..]);
        JoinSplit(s[1..]);
        assert s == [s[0]] + s[1..];
        if |rest| == 1 {
          assert Join(Split(s)) == [s[0]] + rest[0];
        } else {
          assert Split(s)[1..] == rest[1..];
          assert Join(Split(s)) == [s[0]] + rest[0] + "--" + Join(rest[1..]);
          assert Join(rest) == rest[0] + "--" + Join(rest[1..]);
        }
      }
    }
  }

  /** No piece holds the separator "--". */
  lemma {:induction false} PiecesHaveNoSeparator(s: string)
    ensures forall i :: 0 <= i < |Split(s)| ==> !HasSeparator(Split(s)[i])
    decreases |s|
  {
    if |s| >= 2 {
      if s[0] == '-' && s[1] == '-' {
        PiecesHaveNoSeparator(s[2..]);
        forall i | 1 <= i < |Split(s)| ensures !HasSeparator(Split(s)[i]) {
          assert Split(s)[i] == Split(s[2..])[i - 1];
        }
      } else {
        var rest := Split(s[1..]);
        PiecesHaveNoSeparator(s[1..]);
        SplitFirstIsPrefix(s[1..]);
        var first := [s[0]] + rest[0];
        forall k | 0 <= k < |first| - 1 ensures !(first[k] == '-' && first[k + 1] == '-') {
          if k == 0 {
            assert first[1] == rest[0][0] == s[1];
          } else {
            assert first[k] == rest[0][k - 1] && first[k + 1] == rest[0][k];
            assert !HasSeparator(rest[0]);
          }
        }
        forall i | 1 <= i < |Split(s)| ensures !HasSeparator(Split(s)[i]) {
          assert Split(s)[i] == rest[i];
        }
      }
    }
  }

  /** A non-final piece that is not empty never ends in '-': a run of dashes is
      cut at its leftmost "--", as `strings.Split` scans left to right. With
      `JoinSplit` and `PiecesHaveNoSeparator` this fixes every cut. */
  lemma {:induction false} SplitCutsLeftmost(s: string)
    ensures forall i :: 0 <= i < |Split(s)| - 1 ==>
      Split(s)[i] == "" || Split(s)[i][|Split(s)[i]| - 1] != '-'
    decreases |s|
  {
    if |s| >= 2 {
      if s[0] == '-' && s[1] == '-' {
        SplitCutsLeftmost(s[2..]);
        forall i | 1 <= i < |Split(s)| - 1
          ensures Split(s)[i] == "" || Split(s)[i][|Split(s)[i]| - 1] != '-'
        {
          assert Split(s)[i] == Split(s[2..])[i - 1];
        }
      } else {
        var rest := Split(s[1..]);
        SplitCutsLeftmost(s[1..]);
        if |rest| > 1 {
          var first := [s[0]] + rest[0];
          assert Split(s)[0] == first;
          if rest[0] == "" {
            SplitAtSeparator(s[1..]);
            assert first[|first| - 1] == s[0];
          } else {
            assert first[|first| - 1] == rest[0][|rest[0]| - 1];
          }
        }
        forall i | 1 <= i < |Split(s)| - 1
          ensures Split(s)[i] == "" || Split(s)[i][|Split(s)[i]| - 1] != '-'
        {
          assert Split(s)[i] == rest[i];
        }
      }
    }
  }

  /** An empty first piece followed by others means the string starts with "--". */
  lemma SplitAtSeparator(t: string)
    requires |Split(t)| > 1 && Split(t)[0] == ""
    ensures |t| >= 2 && t[0] == '-' && t[1] == '-'
  {
  }

  /** Drop trailing white space. */
  function TrimRight(s: string): (t: string)
    ensures t <= s
    ensures t == [] || !IsSpace(t[|t| - 1])
    ensures forall i :: |t| <= i < |s| ==> IsSpace(s[i])
    decreases |s|
  {
    if s != [] && IsSpace(s[|s| - 1]) then TrimRight(s[..|s| - 1]) else s
  }

  /** Drop leading white space. */
  function TrimLeft(s: string): (t: string)
    ensures |t| <= |s| && t == s[|s| - |t|..]
    ensures t == [] || !IsSpace(t[0])
    ensures forall i :: 0 <= i < |s| - |t| ==> IsSpace(s[i])
    decreases |s|
  {
    if s != [] && IsSpace(s[0]) then
      var t := TrimLeft(s[1..]);
      assert s[1..][|s| - 1 - |t|..] == s[|s| - |t|..];
      assert forall i :: 1 <= i < |s| - |t| ==> s[i] == s[1..][i - 1];
      t
    else s
  }

  /** `strings.TrimSpace`. */
  function TrimSpace(s: string): (t: string)
    ensures |t| <= |s|
    ensures t == [] || (!IsSpace(t[0]) && !IsSpace(t[|t| - 1]))
    ensures exists k {:trigger s[k..]} ::
      && 0 <= k <= |s| - |t| && t == s[k..][..|t|]
      && (forall i :: 0 <= i < k ==> IsSpace(s[i]))
      && (forall i :: k + |t| <= i < |s| ==> IsSpace(s[i]))
  {
    var l := TrimLeft(s);
    var t := TrimRight(l);
    TrimmedWindow(s, |s| - |l|, t);
    t
  }

  /** A prefix `t` of `s[k..]` whose surroundings in `s` are all white space
      is a window of `s` cut between white space. */
  lemma TrimmedWindow(s: string, k: nat, t: string)
    requires k <= |s| && t <= s[k..]
    requires forall i :: 0 <= i < k ==> IsSpace(s[i])
    requires forall i :: |t| <= i < |s[k..]| ==> IsSpace(s[k..][i])
    ensures exists k' {:trigger s[k'..]} ::
      && 0 <= k' <= |s| - |t| && t == s[k'..][..|t|]
      && (forall i :: 0 <= i < k' ==> IsSpace(s[i]))
      && (forall i :: k' + |t| <= i < |s| ==> IsSpace(s[i]))
  {
    forall i | k + |t| <= i < |s|
      ensures IsSpace(s[i])
    {
      assert s[i] == s[k..][i - k];
    }
    assert t == s[k..][..|t|];
  }

  /** The argument made from a piece: `strings.TrimSpace("--" + piece)`. */
  function Argument(piece: string): string {
    TrimSpace("--" + piece)
  }

  /** Every argument is "--" followed by the piece without its trailing white
      space: it starts with "--", does not end in white space, and a piece of
      white space alone gives exactly "--". */
  lemma {:induction false} ArgumentShape(piece: string)
    ensures Argument(piece) == "--" + TrimRight(piece)
    ensures |Argument(piece)| >= 2 && Argument(piece)[..2] == "--"
    ensures !IsSpace(Argument(piece)[|Argument(piece)| - 1])
    ensures (forall i :: 0 <= i < |piece| ==> IsSpace(piece[i])) ==> Argument(piece) == "--"
  {
    assert TrimLeft("--" + piece) == "--" + piece;
    TrimRightAfterPrefix("--", piece);
  }

  lemma {:induction false} TrimRightAfterPrefix(p: string, s: string)
    requires p != [] && !IsSpace(p[|p| - 1])
    ensures TrimRight(p + s) == p + TrimRight(s)
    decreases |s|
  {
    if s == [] {
      assert p + s == p;
    } else if IsSpace(s[|s| - 1]) {
      assert (p + s)[..|p + s| - 1] == p + s[..|s| - 1];
      TrimRightAfterPrefix(p, s[..|s| - 1]);
    }
  }

  /** The non-empty pieces, in order. */
  function NonEmpty(pieces: seq<string>): (kept: seq<string>)
    ensures |kept| <= |pieces|
    ensures forall i :: 0 <= i < |kept| ==> kept[i] != ""
    ensures forall x :: x in kept <==> x in pieces && x != ""
  {
    if pieces == [] then []
    else if pieces[0] == "" then NonEmpty(pieces[1..])
    else [pieces[0]] + NonEmpty(pieces[1..])
  }

  /** Dropping empty pieces keeps the order: the pieces kept from a
      concatenation are those kept from each part, one after the other. */
  lemma {:induction false} NonEmptyAppend(a: seq<string>, b: seq<string>)
    ensures NonEmpty(a + b) == NonEmpty(a) + NonEmpty(b)
    decreases |a|
  {
    if a == [] {
      assert a + b == b;
    } else {
      assert (a + b)[0] == a[0];
      assert (a + b)[1..] == a[1..] + b;
      NonEmptyAppend(a[1..], b);
    }
  }

  /** `f` applied to each non-empty piece, in order. */
  function MapNonEmpty(f: string -> string, pieces: seq<string>): seq<string> {
    if pieces == [] then []
    else if pieces[0] == "" then MapNonEmpty(f, pieces[1..])
    else [f(pieces[0])] + MapNonEmpty(f, pieces[1..])
  }

  lemma MapNonEmptyStep(f: string -> string, pieces: seq<string>)
    requires pieces != []
    ensures MapNonEmpty(f, pieces) ==
      (if pieces[0] == "" then [] else [f(pieces[0])]) + MapNonEmpty(f, pieces[1..])
  {
    if pieces[0] == "" {
      assert [] + MapNonEmpty(f, pieces[1..]) == MapNonEmpty(f, pieces[1..]);
    }
  }

  /** The arguments made from `pieces`, as the loop of `Start` builds them. */
  function Arguments(pieces: seq<string>): seq<string> {
    MapNonEmpty(Argument, pieces)
  }

  lemma {:induction false} MapNonEmptyFollowsPieces(f: string -> string, pieces: seq<string>)
    ensures |MapNonEmpty(f, pieces)| == |NonEmpty(pieces)|
    ensures forall i :: 0 <= i < |MapNonEmpty(f, pieces)| ==>
      MapNonEmpty(f, pieces)[i] == f(NonEmpty(pieces)[i])
    decreases |pieces|
  {
    if pieces != [] {
      MapNonEmptyFollowsPieces(f, pieces[1..]);
      if pieces[0] != "" {
        var out, rest := MapNonEmpty(f, pieces), MapNonEmpty(f, pieces[1..]);
        var kept, restKept := NonEmpty(pieces), NonEmpty(pieces[1..]);
        forall i | 1 <= i < |out| ensures out[i] == f(kept[i]) {
          assert out[i] == rest[i - 1];
          assert kept[i] == restKept[i - 1];
        }
      }
    }
  }

  /** One argument per non-empty piece, made from that piece, in the order of
      the pieces. */
  lemma ArgumentsFollowPieces(pieces: seq<string>)
    ensures |Arguments(pieces)| == |NonEmpty(pieces)|
    ensures forall i :: 0 <= i < |Arguments(pieces)| ==>
      Arguments(pieces)[i] == Argument(NonEmpty(pieces)[i])
  {
    MapNonEmptyFollowsPieces(Argument, pieces);
  }

  /** Every argument starts with "--" and does not end in white space. */
  lemma {:induction false} ArgumentsAreFlags(pieces: seq<string>)
    ensures forall i :: 0 <= i < |Arguments(pieces)| ==>
      |Arguments(pieces)[i]| >= 2 && Arguments(pieces)[i][..2] == "--" &&
      !IsSpace(Arguments(pieces)[i][|Arguments(pieces)[i]| - 1])
  {
    ArgumentsFollowPieces(pieces);
    forall i | 0 <= i < |Arguments(pieces)|
      ensures |Arguments(pieces)[i]| >= 2 && Arguments(pieces)[i][..2] == "--" &&
        !IsSpace(Arguments(pieces)[i][|Arguments(pieces)[i]| - 1])
    {
      ArgumentShape(NonEmpty(pieces)[i]);
    }
  }

  /** An input without "--" is a single piece: the whole input. */
  lemma {:induction false} NoSeparatorOnePiece(s: string)
    requires !HasSeparator(s)
    ensures Split(s) == [s]
    decreases |s|
  {
    if |s| >= 2 {
      assert !(s[0] == '-' && s[1] == '-');
      assert !HasSeparator(s[1..]) by {
        forall i | 0 <= i < |s[1..]| - 1 ensures !(s[1..][i] == '-' && s[1..][i + 1] == '-') {
          assert s[1..][i] == s[i + 1] && s[1..][i + 1] == s[i + 2];
        }
      }
      NoSeparatorOnePiece(s[1..]);
      assert s == [s[0]] + s[1..];
    }
  }

  /** The process arguments, `os.Args`. */
  class Process {
    var args: seq<string>

    constructor (args: seq<string>)
      ensures this.args == args
    {
      this.args := args;
    }

    /** The loop at the top of `Start`. */
    method SplitArgs(extraArgs: string) returns (splitArgs: seq<string>)
      ensures splitArgs == Arguments(Split(extraArgs))
    {
      var pieces := Split(extraArgs);
      splitArgs := [];
      var i := 0;
      while i < |pieces|
        invariant 0 <= i <= |pieces|
        invariant Arguments(pieces) == splitArgs + Arguments(pieces[i..])
      {
        MapNonEmptyStep(Argument, pieces[i..]);
        assert pieces[i..][1..] == pieces[i + 1..];
        if pieces[i] != "" {
          splitArgs := splitArgs + [TrimSpace("--" + pieces[i])];
        }
        i := i + 1;
      }
      assert splitArgs + [] == splitArgs;
    }

    /** Lines 38-50 of `Start`: the new arguments go after the existing ones,
        which are left as they were. */
    method Start(extraArgs: string)
      modifies this
      ensures args == old(args) + Arguments(Split(extraArgs))
    {
      var splitArgs := SplitArgs(extraArgs);
      args := args + splitArgs;
    }
  }
}
