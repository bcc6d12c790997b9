/** Text as sequences of runes: white space, words, and the non-space content that
    chunking must not lose. The functions model the Go library calls that
    rag/chunkers.go is built on. */
module Text {

  /** unicode.IsSpace. */
  predicate IsSpace(c: char) {
    || '\t' <= c <= '\r' || c == ' ' || c == '\U{0085}' || c == '\U{00A0}' || c == '\U{1680}'
    || '\U{2000}' <= c <= '\U{200A}' || c == '\U{2028}' || c == '\U{2029}' || c == '\U{202F}'
    || c == '\U{205F}' || c == '\U{3000}'
  }

  /** The non-space runes of t at positions lo..hi, in order. */
  ghost function Ink(t: string, lo: nat, hi: nat): string
    requires lo <= hi <= |t|
    decreases hi
  {
    if lo == hi then "" else Ink(t, lo, hi - 1) + (if IsSpace(t[hi - 1]) then "" else [t[hi - 1]])
  }

  ghost function NonSpace(t: string): string { Ink(t, 0, |t|) }

  lemma {:induction false} InkSplit(t: string, lo: nat, mid: nat, hi: nat)
    requires lo <= mid <= hi <= |t|
    ensures Ink(t, lo, hi) == Ink(t, lo, mid) + Ink(t, mid, hi)
    decreases hi
  {
    hide IsSpace;
    if mid < hi {
      InkSplit(t, lo, mid, hi - 1);
    }
  }

  lemma {:induction false} InkSame(t: string, lo: nat, hi: nat, u: string, at: nat)
    requires lo <= hi <= |t| && at + hi - lo <= |u|
    requires forall k :: lo <= k < hi ==> t[k] == u[at + k - lo]
    ensures Ink(t, lo, hi) == Ink(u, at, at + hi - lo)
    decreases hi
  {
    hide IsSpace;
    if lo < hi {
      InkSame(t, lo, hi - 1, u, at);
    }
  }

  lemma InkOfSlice(t: string, lo: nat, hi: nat)
    requires lo <= hi <= |t|
    ensures NonSpace(t[lo..hi]) == Ink(t, lo, hi)
  {
    InkSame(t, lo, hi, t[lo..hi], 0);
  }

  lemma NonSpaceConcat(a: string, b: string)
    ensures NonSpace(a + b) == NonSpace(a) + NonSpace(b)
  {
    InkSplit(a + b, 0, |a|, |a + b|);
    InkSame(a, 0, |a|, a + b, 0);
    InkSame(b, 0, |b|, a + b, |a|);
  }

  lemma NonSpaceOfChar(c: char)
    ensures NonSpace([c]) == if IsSpace(c) then "" else [c]
  {
    hide IsSpace;
    assert Ink([c], 0, 0) == "";
  }

  /** No space at all. */
  lemma {:induction false} InkOfWord(w: string, hi: nat)
    requires hi <= |w| && forall k :: 0 <= k < hi ==> !IsSpace(w[k])
    ensures Ink(w, 0, hi) == w[..hi]
  {
    hide IsSpace;
    if hi > 0 {
      InkOfWord(w, hi - 1);
    }
  }

  // ---------- strings.Fields, Join and TrimSpace ----------

  predicate IsWord(w: string) { w != "" && forall k :: 0 <= k < |w| ==> !IsSpace(w[k]) }

  predicate Words(ws: seq<string>) { forall k :: 0 <= k < |ws| ==> IsWord(ws[k]) }

  /** ws with c added to its last word. */
  function Grow(ws: seq<string>, c: char): (r: seq<string>)
    requires ws != []
    ensures |r| == |ws|
  {
    ws[..|ws| - 1] + [ws[|ws| - 1] + [c]]
  }

  /** The maximal runs of non-space runes. */
  function Fields(s: string): (ws: seq<string>)
    ensures Words(ws) && (s != "" && !IsSpace(s[|s| - 1]) ==> ws != [])
  {
    if s == "" then []
    else
      var n := |s| - 1;
      var before := Fields(s[..n]);
      if IsSpace(s[n]) then before
      else if n > 0 && !IsSpace(s[n - 1]) then Grow(before, s[n])
      else before + [[s[n]]]
  }

  lemma FieldsNext(s: string, c: char)
    ensures s != "" && !IsSpace(s[|s| - 1]) ==> Fields(s) != []
    ensures Fields(s + [c]) ==
            if IsSpace(c) then Fields(s)
            else if s != "" && !IsSpace(s[|s| - 1]) then Grow(Fields(s), c)
            else Fields(s) + [[c]]
  {
    hide IsSpace, Grow;
    var t, n := s + [c], |s|;
    assert t[..n] == s && t[n] == c;
    assert n > 0 ==> t[n - 1] == s[n - 1];
    if s != "" && !IsSpace(s[n - 1]) {
      FieldsEndInWord(s);
    }
  }

  lemma FieldsEndInWord(s: string)
    requires s != "" && !IsSpace(s[|s| - 1])
    ensures Fields(s) != []
  {
    hide IsSpace;
  }

  lemma FieldsNone()
    ensures Fields("") == []
  {
  }

  ghost function Flat(parts: seq<string>): string {
    if |parts| == 0 then "" else Flat(parts[..|parts| - 1]) + parts[|parts| - 1]
  }

  lemma {:induction false} FlatConcat(a: seq<string>, b: seq<string>)
    ensures Flat(a + b) == Flat(a) + Flat(b)
  {
    hide Flat;
    FlatNone();
    if |b| == 0 {
      assert a + b == a;
    } else {
      var n := |b| - 1;
      FlatConcat(a, b[..n]);
      FlatSnoc(b[..n], b[n]);
      FlatSnoc(a + b[..n], b[n]);
      assert b == b[..n] + [b[n]];
      assert a + b == a + b[..n] + [b[n]];
    }
  }

  lemma FlatNone()
    ensures Flat([]) == ""
  {
  }

  lemma FlatSnoc(a: seq<string>, x: string)
    ensures Flat(a + [x]) == Flat(a) + x
  {
    assert (a + [x])[..|a|] == a;
  }

  lemma NonSpaceSnoc(s: string)
    requires s != ""
    ensures NonSpace(s) == NonSpace(s[..|s| - 1]) + if IsSpace(s[|s| - 1]) then "" else [s[|s| - 1]]
  {
    hide IsSpace;
    InkOfSlice(s, 0, |s| - 1);
  }

  /** The words of s are its non-space content. */
  lemma {:induction false} FieldsInk(s: string)
    ensures Flat(Fields(s)) == NonSpace(s)
  {
    if s != "" {
      var n := |s| - 1;
      var before := Fields(s[..n]);
      FieldsInk(s[..n]);
      NonSpaceSnoc(s);
      hide IsSpace, NonSpace;
      if IsSpace(s[n]) {
      } else if n > 0 && !IsSpace(s[n - 1]) {
        var m := |before| - 1;
        assert before == before[..m] + [before[m]];
        FlatSnoc(before[..m], before[m]);
        FlatSnoc(before[..m], before[m] + [s[n]]);
      } else {
        FlatSnoc(before, [s[n]]);
      }
    }
  }

  lemma {:induction false} FlatOfWords(ws: seq<string>)
    requires Words(ws)
    ensures |Flat(ws)| >= |ws|
  {
    if ws != [] {
      FlatOfWords(ws[..|ws| - 1]);
    }
  }

  lemma FieldsEmpty(s: string)
    ensures Fields(s) == [] <==> NonSpace(s) == ""
  {
    FieldsInk(s);
    FlatOfWords(Fields(s));
  }

  function WordCount(s: string): nat { |Fields(s)| }

  function Join(parts: seq<string>, sep: string): string {
    if |parts| == 0 then ""
    else if |parts| == 1 then parts[0]
    else Join(parts[..|parts| - 1], sep) + sep + parts[|parts| - 1]
  }

  ghost function Inks(parts: seq<string>): seq<string> {
    seq(|parts|, i requires 0 <= i < |parts| => NonSpace(parts[i]))
  }

  lemma InksNone()
    ensures Inks([]) == []
  {
  }

  lemma NonSpaceNone()
    ensures NonSpace("") == ""
  {
  }

  lemma SpaceIsSpace()
    ensures IsSpace(' ')
  {
  }

  lemma InksSnoc(parts: seq<string>, x: string)
    ensures Flat(Inks(parts + [x])) == Flat(Inks(parts)) + NonSpace(x)
  {
    hide NonSpace;
    assert Inks(parts + [x]) == Inks(parts) + [NonSpace(x)];
    FlatSnoc(Inks(parts), NonSpace(x));
  }

  lemma InksConcat(a: seq<string>, b: seq<string>)
    ensures Flat(Inks(a + b)) == Flat(Inks(a)) + Flat(Inks(b))
  {
    hide NonSpace;
    assert Inks(a + b) == Inks(a) + Inks(b);
    FlatConcat(Inks(a), Inks(b));
  }

  /** Joining with a space adds no content. */
  lemma {:induction false} JoinInk(parts: seq<string>)
    ensures NonSpace(Join(parts, " ")) == Flat(Inks(parts))
  {
    if |parts| > 0 {
      var n := |parts| - 1;
      var before, x := parts[..n], parts[n];
      assert parts == before + [x];
      InksSnoc(before, x);
      JoinInk(before);
      NonSpaceOfChar(' ');
      InksNone();
      FlatNone();
      hide NonSpace, Inks;
      if n == 0 {
        assert before == [];
      } else {
        NonSpaceConcat(Join(before, " ") + " ", x);
        NonSpaceConcat(Join(before, " "), " ");
      }
    }
  }

  lemma {:induction false} InksOfWords(ws: seq<string>)
    requires Words(ws)
    ensures Inks(ws) == ws
  {
    forall i | 0 <= i < |ws| ensures NonSpace(ws[i]) == ws[i] {
      assert IsWord(ws[i]);
      InkOfWord(ws[i], |ws[i]|);
    }
  }

  /** A word after a space, or at the start, is one more field. */
  lemma {:induction false} FieldsWord(x: string, w: string)
    requires (x == "" || IsSpace(x[|x| - 1])) && IsWord(w)
    ensures Fields(x + w) == Fields(x) + [w]
    decreases |w|
  {
    var n := |w| - 1;
    WordSnoc(w);
    hide *;
    FieldsNext(x + w[..n], w[n]);
    if n == 0 {
      assert x + w[..0] == x;
      assert x + w == x + [w[0]];
    } else {
      FieldsWord(x, w[..n]);
      GrowSnoc(Fields(x), w[..n], w[n]);
      assert x + w == (x + w[..n]) + [w[n]];
      assert (x + w[..n])[|x| + n - 1] == w[n - 1];
    }
  }

  lemma WordSnoc(w: string)
    requires IsWord(w)
    ensures w != "" && !IsSpace(w[|w| - 1]) && w == w[..|w| - 1] + [w[|w| - 1]]
    ensures |w| > 1 ==> IsWord(w[..|w| - 1]) && !IsSpace(w[|w| - 2])
  {
    hide IsSpace;
  }

  lemma GrowSnoc(ws: seq<string>, w: string, c: char)
    ensures Grow(ws + [w], c) == ws + [w + [c]]
  {
    assert (ws + [w])[..|ws|] == ws;
  }

  lemma FieldsSpace(x: string, c: char)
    requires IsSpace(c)
    ensures Fields(x + [c]) == Fields(x)
  {
    FieldsNext(x, c);
  }

  lemma {:induction false} FieldsOfJoin(ws: seq<string>)
    requires Words(ws)
    ensures Fields(Join(ws, " ")) == ws
  {
    FieldsNone();
    hide Fields, IsSpace;
    if |ws| > 0 {
      var n := |ws| - 1;
      var before, x := ws[..n], Join(ws[..n], " ") + " ";
      FieldsOfJoin(before);
      SpaceIsSpace();
      assert IsWord(ws[n]);
      if n == 0 {
        FieldsWord("", ws[0]);
        assert "" + ws[0] == ws[0];
      } else {
        FieldsSpace(Join(before, " "), ' ');
        FieldsWord(x, ws[n]);
      }
      assert before + [ws[n]] == ws;
    }
  }

  /** strings.TrimSpace. */
  function Trim(s: string): (t: string)
    ensures t != "" ==> !IsSpace(t[0]) && !IsSpace(t[|t| - 1])
    decreases |s|
  {
    if s == "" then ""
    else if IsSpace(s[0]) then Trim(s[1..])
    else if IsSpace(s[|s| - 1]) then Trim(s[..|s| - 1])
    else s
  }

  lemma {:induction false} FieldsSkip(c: char, s: string)
    requires IsSpace(c)
    ensures Fields([c] + s) == Fields(s)
    decreases |s|
  {
    hide IsSpace, Fields, Grow;
    var n := |s| - 1;
    if s == "" {
      FieldsSpace("", c);
      assert "" + [c] == [c] + s;
    } else {
      FieldsSkip(c, s[..n]);
      FieldsNext(s[..n], s[n]);
      FieldsNext([c] + s[..n], s[n]);
      assert s == s[..n] + [s[n]];
      assert [c] + s == ([c] + s[..n]) + [s[n]];
    }
  }

  lemma {:induction false} TrimKeeps(s: string)
    ensures NonSpace(Trim(s)) == NonSpace(s) && Fields(Trim(s)) == Fields(s)
    ensures Trim(s) == "" <==> NonSpace(s) == ""
    decreases |s|
  {
    var n := |s| - 1;
    FieldsNone();
    NonSpaceNone();
    hide Fields, IsSpace, NonSpace;
    if s == "" {
    } else if IsSpace(s[0]) {
      TrimKeeps(s[1..]);
      assert s == [s[0]] + s[1..];
      NonSpaceConcat([s[0]], s[1..]);
      NonSpaceOfChar(s[0]);
      FieldsSkip(s[0], s[1..]);
    } else if IsSpace(s[n]) {
      TrimKeeps(s[..n]);
      assert s == s[..n] + [s[n]];
      NonSpaceConcat(s[..n], [s[n]]);
      NonSpaceOfChar(s[n]);
      FieldsSpace(s[..n], s[n]);
    } else {
      NonSpaceSnoc(s);
    }
  }

  /** The last n words of s, joined by single spaces. */
  function LastWords(s: string, n: int): string {
    var f := Fields(s);
    if n >= |f| then Join(f, " ")
    else if n <= 0 then ""
    else Join(f[|f| - n..], " ")
  }

  /** The last words of s are a tail of its content. */
  lemma LastWordsInk(s: string, n: int) returns (front: string)
    ensures NonSpace(s) == front + NonSpace(LastWords(s, n))
  {
    var f := Fields(s);
    FieldsInk(s);
    hide Fields, NonSpace, Inks;
    var k := if n >= |f| then 0 else if n <= 0 then |f| else |f| - n;
    assert f == f[..k] + f[k..];
    FlatConcat(f[..k], f[k..]);
    InksOfWords(f[k..]);
    JoinInk(f[k..]);
    front := Flat(f[..k]);
    assert k == 0 ==> f[k..] == f;
    assert k == |f| ==> f[k..] == [];
  }

  // ---------- strings.SplitAfter ----------

  predicate OccursAt(text: string, sep: string, k: nat) {
    k + |sep| <= |text| && text[k..k + |sep|] == sep
  }

  /** The first occurrence of sep at or after k, or the length when there is none. */
  function IndexFrom(text: string, sep: string, k: nat): (i: nat)
    requires k <= |text|
    ensures k <= i <= |text| && (i < |text| ==> OccursAt(text, sep, i))
    ensures forall j :: k <= j < i ==> !OccursAt(text, sep, j)
    decreases |text| - k
  {
    if k == |text| || OccursAt(text, sep, k) then k else IndexFrom(text, sep, k + 1)
  }

  /** The pieces of text, each ending just after an occurrence of sep. */
  function SplitAfter(text: string, sep: string): (parts: seq<string>)
    requires sep != ""
    ensures |parts| > 0
    decreases |text|
  {
    var i := IndexFrom(text, sep, 0);
    if i == |text| then [text] else [text[..i + |sep|]] + SplitAfter(text[i + |sep|..], sep)
  }

  /** sep does not occur in f, except as its ending. */
  ghost predicate OnlyAtEnd(f: string, sep: string) {
    forall k :: 0 <= k < |f| - |sep| ==> !OccursAt(f, sep, k)
  }

  /** Splitting loses nothing. */
  lemma {:induction false} SplitAfterFlat(text: string, sep: string)
    requires sep != ""
    ensures Flat(SplitAfter(text, sep)) == text
    decreases |text|
  {
    hide *;
    var i := SplitAfterStep(text, sep);
    if i == |text| {
      FlatOne(text);
    } else {
      var head, rest := text[..i + |sep|], text[i + |sep|..];
      SplitAfterFlat(rest, sep);
      FlatConcat([head], SplitAfter(rest, sep));
      FlatOne(head);
      assert text == head + rest;
    }
  }

  lemma SplitAfterStep(text: string, sep: string) returns (i: nat)
    requires sep != ""
    ensures i <= |text| && (i < |text| ==> i + |sep| <= |text|)
    ensures SplitAfter(text, sep)
         == if i == |text| then [text] else [text[..i + |sep|]] + SplitAfter(text[i + |sep|..], sep)
    ensures forall j :: 0 <= j < i ==> !OccursAt(text, sep, j)
  {
    i := IndexFrom(text, sep, 0);
    hide IndexFrom;
  }

  /** No piece can be split further. */
  lemma {:induction false} SplitAfterIsFine(text: string, sep: string)
    requires sep != ""
    ensures forall k :: 0 <= k < |SplitAfter(text, sep)| ==> OnlyAtEnd(SplitAfter(text, sep)[k], sep)
    decreases |text|
  {
    hide *;
    var i := SplitAfterStep(text, sep);
    if i < |text| {
      SplitAfterIsFine(text[i + |sep|..], sep);
      HeadIsFine(text, sep, i);
    } else {
      WholeIsFine(text, sep);
    }
  }

  lemma WholeIsFine(text: string, sep: string)
    requires forall j :: 0 <= j < |text| ==> !OccursAt(text, sep, j)
    ensures OnlyAtEnd(text, sep)
  {
    hide OccursAt;
  }

  lemma HeadIsFine(text: string, sep: string, i: nat)
    requires sep != "" && i + |sep| <= |text| && forall j :: 0 <= j < i ==> !OccursAt(text, sep, j)
    ensures OnlyAtEnd(text[..i + |sep|], sep)
  {
    hide OccursAt;
    var head := text[..i + |sep|];
    forall k | 0 <= k < |head| - |sep| ensures !OccursAt(head, sep, k) {
      if OccursAt(head, sep, k) {
        OccursInPrefix(text, i + |sep|, sep, k);
      }
    }
  }

  lemma FlatOne(x: string)
    ensures Flat([x]) == x
  {
    FlatSnoc([], x);
    assert [] + [x] == [x];
  }

  lemma OccursInPrefix(text: string, hi: nat, sep: string, k: nat)
    requires hi <= |text| && OccursAt(text[..hi], sep, k)
    ensures OccursAt(text, sep, k)
  {
    assert text[..hi][k..k + |sep|] == text[k..k + |sep|];
  }

  lemma {:induction false} FlatInks(parts: seq<string>)
    ensures Flat(Inks(parts)) == NonSpace(Flat(parts))
  {
    NonSpaceNone();
    hide NonSpace;
    if |parts| > 0 {
      var n := |parts| - 1;
      FlatInks(parts[..n]);
      assert parts == parts[..n] + [parts[n]];
      InksSnoc(parts[..n], parts[n]);
      NonSpaceConcat(Flat(parts[..n]), parts[n]);
    }
  }
}
