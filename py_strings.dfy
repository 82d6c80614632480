/** The Python string operations the tool-call extractor relies on:
    substring search (`in`, `find`), `split` with a separator and
    `strip` with no argument. */
module PyStrings {
  import opened Wrappers

  /** `str.isspace` for one character: the ASCII controls TAB..CR and
      FS..US, space, NEL, NBSP, and the Unicode space separators and
      line/paragraph separators. */
  predicate IsSpace(c: char)
  {
    ('\t' <= c <= '\r') || ('\U{1C}' <= c <= '\U{1F}') || c == ' ' ||
    c == '\U{85}' || c == '\U{A0}' || c == '\U{1680}' ||
    ('\U{2000}' <= c <= '\U{200A}') || c == '\U{2028}' || c == '\U{2029}' ||
    c == '\U{202F}' || c == '\U{205F}' || c == '\U{3000}'
  }

  ghost predicate AllSpace(s: string)
  {
    forall k :: 0 <= k < |s| ==> IsSpace(s[k])
  }

  /** `pat` occurs in `s` starting at index i. */
  ghost predicate Occurs(s: string, pat: string, i: int)
  {
    0 <= i && i + |pat| <= |s| && s[i..i + |pat|] == pat
  }

  /** `s.find(pat)`: the first index at which `pat` occurs, if any. */
  function Find(s: string, pat: string): (r: Option<nat>)
    ensures r.Some? ==> Occurs(s, pat, r.value)
    ensures r.Some? ==> forall j :: 0 <= j < r.value ==> !Occurs(s, pat, j)
    ensures r.None? ==> forall j :: !Occurs(s, pat, j)
    decreases |s|
  {
    if |s| < |pat| then None
    else if s[..|pat|] == pat then Some(0)
    else
      match Find(s[1..], pat)
      case None =>
        assert forall j :: Occurs(s, pat, j) ==> j == 0 || Occurs(s[1..], pat, j - 1);
        None
      case Some(k) =>
        assert Occurs(s[1..], pat, k) ==> Occurs(s, pat, k + 1);
        assert forall j :: 0 < j <= k && Occurs(s, pat, j) ==> Occurs(s[1..], pat, j - 1);
        Some(k + 1)
  }

  /** `pat in s`. */
  predicate Contains(s: string, pat: string)
  {
    Find(s, pat).Some?
  }

  /** The text before the first occurrence of `sep`, or all of `s`. */
  function Head(s: string, sep: string): string
  {
    match Find(s, sep)
    case None => s
    case Some(i) => s[..i]
  }

  /** `s.split(sep)` for a non-empty separator: the pieces between
      successive non-overlapping occurrences, searched left to right. */
  function Split(s: string, sep: string): (r: seq<string>)
    requires sep != ""
    ensures |r| >= 1 && r[0] == Head(s, sep)
    ensures Contains(s, sep) <==> |r| >= 2
    ensures Contains(s, sep) ==> r[1] == Head(s[Find(s, sep).value + |sep|..], sep)
    decreases |s|
  {
    match Find(s, sep)
    case None => [s]
    case Some(i) => [s[..i]] + Split(s[i + |sep|..], sep)
  }

  /** `sep.join(pieces)`. */
  function Join(pieces: seq<string>, sep: string): string
    requires |pieces| >= 1
    decreases |pieces|
  {
    if |pieces| == 1 then pieces[0] else pieces[0] + sep + Join(pieces[1..], sep)
  }

  /** The text before the first occurrence of a non-empty `sep` holds
      none. */
  lemma BeforeFirstHasNone(s: string, sep: string, i: nat)
    requires sep != "" && Find(s, sep) == Some(i)
    ensures !Contains(s[..i], sep)
  {
    forall j | 0 <= j && j + |sep| <= i ensures !Occurs(s[..i], sep, j) {
      assert s[..i][j..j + |sep|] == s[j..j + |sep|];
      assert !Occurs(s, sep, j);
    }
  }

  lemma JoinCons(x: string, rest: seq<string>, sep: string)
    requires |rest| >= 1
    ensures Join([x] + rest, sep) == x + sep + Join(rest, sep)
  {
    assert ([x] + rest)[1..] == rest;
  }

  lemma AroundOccurrence(s: string, sep: string, i: int)
    requires Occurs(s, sep, i)
    ensures s[..i] + sep + s[i + |sep|..] == s
  {
  }

  /** Joining the pieces of a split with its separator gives back the
      text. */
  lemma {:induction false} SplitJoin(s: string, sep: string)
    requires sep != ""
    ensures Join(Split(s, sep), sep) == s
    decreases |s|
  {
    match Find(s, sep)
    case None =>
    case Some(i) =>
      var tail := s[i + |sep|..];
      SplitJoin(tail, sep);
      JoinCons(s[..i], Split(tail, sep), sep);
      AroundOccurrence(s, sep, i);
  }

  /** No piece in `pieces` holds `sep`. */
  ghost predicate NoPieceHolds(pieces: seq<string>, sep: string)
    decreases |pieces|
  {
    pieces == [] || (!Contains(pieces[0], sep) && NoPieceHolds(pieces[1..], sep))
  }

  lemma {:induction false} NoPieceHoldsAt(pieces: seq<string>, sep: string, k: int)
    requires NoPieceHolds(pieces, sep) && 0 <= k < |pieces|
    ensures !Contains(pieces[k], sep)
    decreases k
  {
    if k > 0 {
      NoPieceHoldsAt(pieces[1..], sep, k - 1);
    }
  }

  lemma {:induction false} SplitNoPieceHolds(s: string, sep: string)
    requires sep != ""
    ensures NoPieceHolds(Split(s, sep), sep)
    decreases |s|
  {
    match Find(s, sep)
    case None =>
    case Some(i) =>
      var tail := s[i + |sep|..];
      var r := Split(tail, sep);
      SplitAtFirst(s, sep, i);
      SplitNoPieceHolds(tail, sep);
      BeforeFirstHasNone(s, sep, i);
      ConsNoPiece(s[..i], r, sep);
  }

  lemma SplitAtFirst(s: string, sep: string, i: nat)
    requires sep != "" && Find(s, sep) == Some(i)
    ensures Split(s, sep) == [s[..i]] + Split(s[i + |sep|..], sep)
  {
  }

  lemma ConsNoPiece(x: string, rest: seq<string>, sep: string)
    requires !Contains(x, sep) && NoPieceHolds(rest, sep)
    ensures NoPieceHolds([x] + rest, sep)
  {
    assert ([x] + rest)[1..] == rest;
  }

  /** No piece of a split holds the separator. */
  lemma SplitPiecesFree(s: string, sep: string)
    requires sep != ""
    ensures forall k :: 0 <= k < |Split(s, sep)| ==> !Contains(Split(s, sep)[k], sep)
  {
    var r := Split(s, sep);
    SplitNoPieceHolds(s, sep);
    forall k | 0 <= k < |r| ensures !Contains(r[k], sep) {
      NoPieceHoldsAt(r, sep, k);
    }
  }

  lemma AllSpaceCons(c: char, t: string)
    requires IsSpace(c) && AllSpace(t)
    ensures AllSpace([c] + t)
  {
  }

  lemma AllSpaceSnoc(t: string, c: char)
    requires AllSpace(t) && IsSpace(c)
    ensures AllSpace(t + [c])
  {
  }

  /** One step of `LStrip`: a leading space joins the stripped prefix. */
  lemma LStripStep(s: string, r: string)
    requires s != [] && IsSpace(s[0])
    requires |r| <= |s| - 1 && r == s[1..][|s| - 1 - |r|..] && AllSpace(s[1..][..|s| - 1 - |r|])
    ensures r == s[|s| - |r|..] && AllSpace(s[..|s| - |r|])
  {
    assert s[1..][|s| - 1 - |r|..] == s[|s| - |r|..];
    assert s[..|s| - |r|] == [s[0]] + s[1..][..|s| - 1 - |r|];
    AllSpaceCons(s[0], s[1..][..|s| - 1 - |r|]);
  }

  /** One step of `RStrip`: a trailing space joins the stripped suffix. */
  lemma RStripStep(s: string, r: string)
    requires s != [] && IsSpace(s[|s| - 1])
    requires |r| <= |s| - 1 && r == s[..|s| - 1][..|r|] && AllSpace(s[..|s| - 1][|r|..])
    ensures r == s[..|r|] && AllSpace(s[|r|..])
  {
    assert s[..|s| - 1][..|r|] == s[..|r|];
    assert s[|r|..] == s[..|s| - 1][|r|..] + [s[|s| - 1]];
    AllSpaceSnoc(s[..|s| - 1][|r|..], s[|s| - 1]);
  }

  function LStrip(s: string): (r: string)
    ensures |r| <= |s| && r == s[|s| - |r|..]
    ensures AllSpace(s[..|s| - |r|])
    ensures r == [] || !IsSpace(r[0])
    decreases |s|
  {
    if s != [] && IsSpace(s[0]) then
      var r := LStrip(s[1..]);
      LStripStep(s, r);
      r
    else s
  }

  function RStrip(s: string): (r: string)
    ensures |r| <= |s| && r == s[..|r|]
    ensures AllSpace(s[|r|..])
    ensures r == [] || !IsSpace(r[|r| - 1])
    decreases |s|
  {
    if s != [] && IsSpace(s[|s| - 1]) then
      var r := RStrip(s[..|s| - 1]);
      RStripStep(s, r);
      r
    else s
  }

  /** `s.strip()`: the slice of `s` left after removing whitespace from
      both ends. */
  function Strip(s: string): (r: string)
    ensures exists i, j :: 0 <= i <= j <= |s| && r == s[i..j] && AllSpace(s[..i]) && AllSpace(s[j..])
    ensures r == [] || (!IsSpace(r[0]) && !IsSpace(r[|r| - 1]))
  {
    var l := LStrip(s);
    var r := RStrip(l);
    StripSlice(s, l, r);
    r
  }

  /** Cutting spaces from the front and then from the back leaves a slice
      with only spaces cut from either end. */
  lemma StripSlice(s: string, l: string, r: string)
    requires |l| <= |s| && l == s[|s| - |l|..] && AllSpace(s[..|s| - |l|])
    requires |r| <= |l| && r == l[..|r|] && AllSpace(l[|r|..])
    ensures exists i, j :: 0 <= i <= j <= |s| && r == s[i..j] && AllSpace(s[..i]) && AllSpace(s[j..])
  {
    var i := |s| - |l|;
    assert r == s[i..i + |r|];
    assert s[i + |r|..] == l[|r|..];
  }

  /** Stripping removes the line breaks around a text that is not padded. */
  lemma StripLineBreaks(text: string)
    requires text != [] && !IsSpace(text[0]) && !IsSpace(text[|text| - 1])
    ensures Strip("\n" + text + "\n") == text
  {
    var body := "\n" + text + "\n";
    assert body[1..] == text + "\n";
    assert LStrip(body) == text + "\n" by {
      assert LStrip(text + "\n") == text + "\n";
    }
    assert RStrip(text + "\n") == text by {
      assert (text + "\n")[..|text|] == text;
    }
  }

  /** A string with no whitespace at either end is its own strip. */
  lemma StripUnpadded(s: string)
    requires s == [] || (!IsSpace(s[0]) && !IsSpace(s[|s| - 1]))
    ensures Strip(s) == s
  {
  }
}
