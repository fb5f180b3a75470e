/** Parsing the comma-separated channel selection: `split` reads pieces with
    `std::getline` semantics, so a trailing delimiter (or an empty input)
    produces no final empty piece, and pieces are not trimmed. */
module Selection {

  /** The index of the first `delim` in `s`, or `|s|` when there is none. */
  function IndexOf(s: string, delim: char): (k: nat)
    ensures k <= |s|
    ensures forall j :: 0 <= j < k ==> s[j] != delim
    ensures k < |s| ==> s[k] == delim
  {
    if s == [] || s[0] == delim then 0 else 1 + IndexOf(s[1..], delim)
  }

  /** The pieces `getline` extracts from `s`: each piece runs up to the next
      delimiter, and reading stops when the stream is exhausted. */
  function Split(s: string, delim: char): (pieces: seq<string>)
    ensures forall i :: 0 <= i < |pieces| ==> delim !in pieces[i]
    ensures s == [] <==> pieces == []
    decreases |s|
  {
    if s == [] then []
    else
      var k := IndexOf(s, delim);
      if k == |s| then [s] else [s[..k]] + Split(s[k + 1..], delim)
  }

  /** The pieces glued back together with the delimiter between them. */
  function Join(pieces: seq<string>, delim: char): string {
    if |pieces| == 0 then []
    else if |pieces| == 1 then pieces[0]
    else pieces[0] + [delim] + Join(pieces[1..], delim)
  }

  /** True when `s` ends with the delimiter. */
  predicate EndsWith(s: string, delim: char) {
    |s| > 0 && s[|s| - 1] == delim
  }

  /** One `std::getline` call on a stream positioned at `start`: the
      characters up to the next delimiter (or the end) form the item, and the
      stream resumes after the delimiter. */
  method GetLine(s: string, start: nat, delim: char) returns (item: string, stop: nat)
    requires start < |s|
    ensures start <= stop <= |s|
    ensures item == s[start..stop]
    ensures forall j :: start <= j < stop ==> s[j] != delim
    ensures stop < |s| ==> s[stop] == delim
  {
    item := [];
    stop := start;
    while stop < |s| && s[stop] != delim
      invariant start <= stop <= |s|
      invariant item == s[start..stop]
      invariant forall j :: start <= j < stop ==> s[j] != delim
      decreases |s| - stop
    {
      assert s[start..stop + 1] == s[start..stop] + [s[stop]];
      item := item + [s[stop]];
      stop := stop + 1;
    }
  }

  /** The loop of `split(s, delim, elems)`: every piece `getline` reads is
      appended to the vector the caller passed in, whose earlier entries are
      kept. */
  method SplitAppend(s: string, delim: char, elems: seq<string>) returns (r: seq<string>)
    ensures r == elems + Split(s, delim)
  {
    r := elems;
    var pos := 0;
    while pos < |s|
      invariant 0 <= pos <= |s|
      invariant r + Split(s[pos..], delim) == elems + Split(s, delim)
      decreases |s| - pos
    {
      var item, stop := GetLine(s, pos, delim);
      var next := if stop < |s| then stop + 1 else stop;
      AppendPiece(s, delim, elems, r, pos, stop, next);
      r := r + [item];
      pos := next;
    }
    assert s[pos..] == [];
  }

  /** One turn of the loop of `split` keeps its invariant: appending the
      piece read at `start` and resuming at `next` leaves the pieces still
      to come unchanged. */
  lemma AppendPiece(s: string, delim: char, elems: seq<string>, r: seq<string>, start: nat, stop: nat, next: nat)
    requires start < |s| && start <= stop <= |s|
    requires forall j :: start <= j < stop ==> s[j] != delim
    requires stop < |s| ==> s[stop] == delim
    requires next == if stop < |s| then stop + 1 else stop
    requires r + Split(s[start..], delim) == elems + Split(s, delim)
    ensures r + [s[start..stop]] + Split(s[next..], delim) == elems + Split(s, delim)
  {
    SplitResume(s, delim, start, stop, next);
    assert r + [s[start..stop]] + Split(s[next..], delim) == r + ([s[start..stop]] + Split(s[next..], delim));
  }

  /** Where the next `getline` call resumes: after the delimiter that
      ended the piece, or at the end when there was none. */
  lemma SplitResume(s: string, delim: char, start: nat, stop: nat, next: nat)
    requires start < |s| && start <= stop <= |s|
    requires forall j :: start <= j < stop ==> s[j] != delim
    requires stop < |s| ==> s[stop] == delim
    requires next == if stop < |s| then stop + 1 else stop
    ensures Split(s[start..], delim) == [s[start..stop]] + Split(s[next..], delim)
  {
    SplitStep(s, delim, start, stop);
    if stop == |s| {
      assert s[next..] == [];
    }
  }

  /** One `getline` step: the piece starting at `start` runs to the next
      delimiter at `stop` (or the end), and splitting resumes after it. */
  lemma SplitStep(s: string, delim: char, start: nat, stop: nat)
    requires start < |s| && start <= stop <= |s|
    requires forall j :: start <= j < stop ==> s[j] != delim
    requires stop < |s| ==> s[stop] == delim
    ensures stop < |s| ==> Split(s[start..], delim) == [s[start..stop]] + Split(s[stop + 1..], delim)
    ensures stop == |s| ==> Split(s[start..], delim) == [s[start..stop]]
  {
    var t := s[start..];
    IndexOfPrefix(t, delim, stop - start);
    assert t[..stop - start] == s[start..stop];
    if stop < |s| {
      assert t[stop - start + 1..] == s[stop + 1..];
    } else {
      assert t == s[start..stop];
    }
  }

  /** Locating the first delimiter in a string that starts with `n`
      delimiter-free characters followed by a delimiter or its end. */
  lemma IndexOfPrefix(t: string, delim: char, n: nat)
    requires n <= |t|
    requires forall j :: 0 <= j < n ==> t[j] != delim
    requires n < |t| ==> t[n] == delim
    ensures IndexOf(t, delim) == n
  {
  }

  /** Joining the pieces of `s` gives `s` back whenever `s` does not end
      with the delimiter. */
  lemma {:induction false} JoinSplit(s: string, delim: char)
    requires !EndsWith(s, delim)
    ensures Join(Split(s, delim), delim) == s
    decreases |s|
  {
    if s != [] {
      var k := IndexOf(s, delim);
      if k < |s| {
        var rest := s[k + 1..];
        assert !EndsWith(rest, delim) by {
          assert rest != [] && rest[|rest| - 1] == s[|s| - 1];
        }
        JoinSplit(rest, delim);
        JoinSplitStep(s, delim, k);
      } else {
        assert Split(s, delim) == [s];
      }
    }
  }

  /** The recursive step of `JoinSplit`: when the rest after the first
      delimiter joins back, so does the whole string. */
  lemma JoinSplitStep(s: string, delim: char, k: nat)
    requires k + 1 < |s| && IndexOf(s, delim) == k
    requires Join(Split(s[k + 1..], delim), delim) == s[k + 1..]
    ensures Join(Split(s, delim), delim) == s
  {
    var rest := s[k + 1..];
    var tail := Split(rest, delim);
    assert Split(s, delim) == [s[..k]] + tail by {
      SplitStep(s, delim, 0, k);
      assert s[0..] == s && s[0..k] == s[..k];
    }
    JoinCons(s[..k], tail, delim);
    assert s == s[..k] + [delim] + rest;
  }

  /** Joining a piece in front of a non-empty list of pieces puts one
      delimiter between it and the rest. */
  lemma JoinCons(p: string, tail: seq<string>, delim: char)
    requires tail != []
    ensures Join([p] + tail, delim) == p + [delim] + Join(tail, delim)
  {
    assert ([p] + tail)[1..] == tail;
  }

  /** Splitting delimiter-free pieces that were joined gives the pieces
      back, provided the last piece is not empty (an empty last piece is
      the one `getline` does not report). */
  lemma {:induction false} SplitJoin(pieces: seq<string>, delim: char)
    requires forall i :: 0 <= i < |pieces| ==> delim !in pieces[i]
    requires |pieces| > 0 ==> pieces[|pieces| - 1] != []
    ensures Split(Join(pieces, delim), delim) == pieces
    decreases |pieces|
  {
    if |pieces| == 1 {
      IndexOfPrefix(pieces[0], delim, |pieces[0]|);
    } else if |pieces| > 1 {
      var rest := pieces[1..];
      var s := Join(pieces, delim);
      assert s == pieces[0] + [delim] + Join(rest, delim);
      IndexOfPrefix(s, delim, |pieces[0]|);
      assert s[..|pieces[0]|] == pieces[0];
      assert s[|pieces[0]| + 1..] == Join(rest, delim);
      SplitJoin(rest, delim);
      JoinNonEmpty(rest, delim);
      assert pieces == [pieces[0]] + rest;
    }
  }

  /** A join whose last piece is not empty is not empty. */
  lemma JoinNonEmpty(pieces: seq<string>, delim: char)
    requires |pieces| > 0 && pieces[|pieces| - 1] != []
    ensures Join(pieces, delim) != []
  {
  }

  /** Empty pieces between delimiters are kept. */
  lemma SplitKeepsEmptyPieces()
    ensures Split("a,,b", ',') == ["a", "", "b"]
  {
    var pieces := ["a", "", "b"];
    assert pieces[1..] == ["", "b"] && pieces[1..][1..] == ["b"];
    assert Join(pieces, ',') == "a,,b";
    SplitJoin(pieces, ',');
  }

  /** Pieces are not trimmed: blanks around them are kept. */
  lemma SplitKeepsBlanks()
    ensures Split(" a , b", ',') == [" a ", " b"]
  {
    var pieces := [" a ", " b"];
    assert pieces[1..] == [" b"];
    assert Join(pieces, ',') == " a , b";
    SplitJoin(pieces, ',');
  }

  /** An empty input gives no pieces, and a trailing delimiter gives no
      final empty piece. */
  lemma SplitDropsTrailingEmptyPiece()
    ensures Split("", ',') == []
    ensures Split("a,", ',') == ["a"]
    ensures Split(",", ',') == [""]
  {
    SplitStep("a,", ',', 0, 1);
    assert "a,"[0..] == "a," && "a,"[0..1] == "a" && "a,"[2..] == "";
    SplitStep(",", ',', 0, 0);
    assert ","[0..] == "," && ","[0..0] == "" && ","[1..] == "";
  }
}
