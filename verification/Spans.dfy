/** Mapping chunks back to the text they came from: locateSpan and matchFrom of
    rag/document.go, the cursor loop and the chunk ids of rag/chunk.go. */
module Spans {
  import opened Text
  import opened Chunkers

  // ---------- content and positions ----------

  /** The content of t from position i on. */
  ghost function InkFrom(t: string, i: nat): string
    requires i <= |t|
  {
    Ink(t, i, |t|)
  }

  /** How much content lies before position i. */
  ghost function Rank(t: string, i: nat): nat
    requires i <= |t|
  {
    |Ink(t, 0, i)|
  }

  lemma InkEmpty(t: string, i: nat)
    requires i <= |t|
    ensures Ink(t, i, i) == ""
  {
  }

  lemma InkStep(t: string, lo: nat, hi: nat)
    requires lo <= hi < |t|
    ensures Ink(t, lo, hi + 1) == Ink(t, lo, hi) + if IsSpace(t[hi]) then "" else [t[hi]]
  {
  }

  lemma InkFront(t: string, lo: nat, hi: nat)
    requires lo < hi <= |t|
    ensures Ink(t, lo, hi) == (if IsSpace(t[lo]) then "" else [t[lo]]) + Ink(t, lo + 1, hi)
  {
    InkSplit(t, lo, lo + 1, hi);
    InkStep(t, lo, lo);
    InkEmpty(t, lo);
  }

  lemma InkTotal(t: string, i: nat)
    requires i <= |t|
    ensures NonSpace(t) == Ink(t, 0, i) + InkFrom(t, i)
    ensures Rank(t, i) <= |NonSpace(t)| && InkFrom(t, i) == NonSpace(t)[Rank(t, i)..]
  {
    InkSplit(t, 0, i, |t|);
  }

  lemma RankGrows(t: string, i: nat, j: nat)
    requires i <= j <= |t|
    ensures Rank(t, i) <= Rank(t, j)
    ensures i < j && !IsSpace(t[i]) ==> Rank(t, i) < Rank(t, j)
  {
    InkSplit(t, 0, i, j);
    if i < j {
      InkFront(t, i, j);
    }
  }

  /** Some non-space position has exactly r content before it. */
  lemma {:induction false} PositionOfRank(t: string, r: nat, hi: nat) returns (i: nat)
    requires hi <= |t| && r < |Ink(t, 0, hi)|
    ensures i < hi && !IsSpace(t[i]) && Rank(t, i) == r
    decreases hi
  {
    hide IsSpace;
    if r < |Ink(t, 0, hi - 1)| {
      i := PositionOfRank(t, r, hi - 1);
    } else {
      i := hi - 1;
    }
  }

  // ---------- matchFrom ----------

  lemma PrefixSplit(a: string, x: string, y: string)
    ensures a + x <= a + y <==> x <= y
  {
    assert x <= y ==> a + y == a + x + y[|x|..];
    if a + x <= a + y {
      assert forall i :: 0 <= i < |x| ==> x[i] == (a + x)[|a| + i] == (a + y)[|a| + i];
    }
  }

  /** What is left to match, after ti and sj. */
  ghost predicate Matched(text: string, s: string, ti0: nat, ti: nat, lo: nat, sj: nat, hi: nat) {
    && ti0 <= ti <= |text| && lo <= sj <= hi <= |s|
    && Ink(text, ti0, ti) == Ink(s, lo, sj)
  }

  lemma MatchedLeft(text: string, s: string, ti0: nat, ti: nat, lo: nat, sj: nat, hi: nat)
    requires Matched(text, s, ti0, ti, lo, sj, hi)
    ensures Ink(s, lo, hi) <= InkFrom(text, ti0) <==> Ink(s, sj, hi) <= InkFrom(text, ti)
  {
    InkSplit(s, lo, sj, hi);
    InkSplit(text, ti0, ti, |text|);
    PrefixSplit(Ink(s, lo, sj), Ink(s, sj, hi), InkFrom(text, ti));
  }

  lemma NotPrefix(x: string, y: string)
    requires |x| > 0 && (|y| > 0 ==> y[0] != x[0])
    ensures !(x <= y)
  {
  }

  lemma MismatchAt(text: string, s: string, ti: nat, sj: nat, hi: nat)
    requires ti <= |text| && sj < hi <= |s| && !IsSpace(s[sj])
    requires ti < |text| ==> !IsSpace(text[ti]) && text[ti] != s[sj]
    ensures !(Ink(s, sj, hi) <= InkFrom(text, ti))
  {
    InkFront(s, sj, hi);
    if ti < |text| {
      InkFront(text, ti, |text|);
    } else {
      InkEmpty(text, ti);
    }
    hide Ink, IsSpace;
    var left, more := Ink(s, sj, hi), InkFrom(text, ti);
    assert |left| > 0 && left[0] == s[sj];
    NotPrefix(left, more);
  }

  /** Skipping white space. */
  method SkipSpace(t: string, from: nat, to: nat) returns (i: nat)
    requires from <= to <= |t|
    ensures from <= i <= to && Ink(t, from, i) == "" && (i < to ==> !IsSpace(t[i]))
    ensures from < to && IsSpace(t[from]) ==> i > from
    ensures from < to && !IsSpace(t[from]) ==> i == from
  {
    hide IsSpace;
    i := from;
    while i < to && IsSpace(t[i])
      invariant from <= i <= to && Ink(t, from, i) == ""
      invariant i > from ==> IsSpace(t[from])
    {
      i := i + 1;
    }
  }

  lemma MatchedSkip(text: string, s: string, ti0: nat, ti: nat, ti': nat, lo: nat, sj: nat, sj': nat, hi: nat)
    requires Matched(text, s, ti0, ti, lo, sj, hi) && ti <= ti' <= |text| && sj <= sj' <= hi
    requires Ink(text, ti, ti') == "" && Ink(s, sj, sj') == ""
    ensures Matched(text, s, ti0, ti', lo, sj', hi)
  {
    InkSplit(text, ti0, ti, ti');
    InkSplit(s, lo, sj, sj');
  }

  lemma MatchedStep(text: string, s: string, ti0: nat, ti: nat, lo: nat, sj: nat, hi: nat)
    requires Matched(text, s, ti0, ti, lo, sj, hi) && ti < |text| && sj < hi
    requires text[ti] == s[sj] && !IsSpace(s[sj])
    ensures Matched(text, s, ti0, ti + 1, lo, sj + 1, hi)
  {
    InkStep(text, ti0, ti);
    InkStep(s, lo, sj);
  }

  /** The outcome of a match: the whole of s[lo..hi] lies in text[start..end], with
      nothing else but white space. */
  ghost predicate IsMatch(text: string, s: string, ti0: nat, lo: nat, hi: nat, start: int, end: int) {
    && ti0 <= end <= |text| && lo <= hi <= |s|
    && Ink(text, ti0, end) == Ink(s, lo, hi)
    && (start < 0 ==> Ink(s, lo, hi) == "")
    && (start >= 0 ==> ti0 <= start < end && Ink(text, ti0, start) == "" && !IsSpace(text[start]))
    && (lo < hi && !IsSpace(s[hi - 1]) ==> end > ti0 && !IsSpace(text[end - 1]))
  }

  method MatchFrom(text: string, s: string, ti0: nat, lo: nat, hi: nat) returns (start: int, end: int, ok: bool)
    requires ti0 <= |text| && lo <= hi <= |s|
    ensures ok <==> Ink(s, lo, hi) <= InkFrom(text, ti0)
    ensures ok ==> IsMatch(text, s, ti0, lo, hi, start, end)
    ensures !ok ==> start == -1 && end == -1
  {
    hide IsSpace, Ink, InkFrom, IsMatch;
    var ti: nat := ti0;
    var sj: nat := lo;
    start := -1;
    InkEmpty(text, ti0);
    InkEmpty(s, lo);
    while sj < hi
      invariant Matched(text, s, ti0, ti, lo, sj, hi)
      invariant start < 0 ==> Ink(s, lo, sj) == ""
      invariant start >= 0 ==> ti0 <= start < ti && Ink(text, ti0, start) == "" && !IsSpace(text[start])
      invariant lo < sj == hi && !IsSpace(s[hi - 1]) ==> ti > ti0 && !IsSpace(text[ti - 1])
      decreases hi - sj
    {
      var nt := SkipSpace(text, ti, |text|);
      if IsSpace(s[sj]) {
        var ns := SkipSpace(s, sj, hi);
        MatchedSkip(text, s, ti0, ti, nt, lo, sj, ns, hi);
        InkSplit(s, lo, sj, ns);
        SpaceBefore(s, sj, ns);
        sj := ns;
        ti := nt;
        continue;
      }
      InkEmpty(s, sj);
      MatchedSkip(text, s, ti0, ti, nt, lo, sj, sj, hi);
      ti := nt;
      MatchedLeft(text, s, ti0, ti, lo, sj, hi);
      if ti >= |text| || text[ti] != s[sj] {
        MismatchAt(text, s, ti, sj, hi);
        return -1, -1, false;
      }
      MatchedStep(text, s, ti0, ti, lo, sj, hi);
      if start < 0 {
        start := ti;
      }
      ti := ti + 1;
      sj := sj + 1;
    }
    end, ok := ti, true;
    MatchedAll(text, s, ti0, ti, lo, hi);
    IsMatchIs(text, s, ti0, lo, hi, start, end);
  }

  lemma SpaceBefore(s: string, from: nat, i: nat)
    requires from < i <= |s| && Ink(s, from, i) == ""
    ensures IsSpace(s[i - 1])
  {
  }

  lemma MatchedAll(text: string, s: string, ti0: nat, ti: nat, lo: nat, hi: nat)
    requires Matched(text, s, ti0, ti, lo, hi, hi)
    ensures Ink(s, lo, hi) <= InkFrom(text, ti0) && Ink(text, ti0, ti) == Ink(s, lo, hi)
  {
    InkSplit(text, ti0, ti, |text|);
  }

  lemma IsMatchIs(text: string, s: string, ti0: nat, lo: nat, hi: nat, start: int, end: int)
    requires ti0 <= end <= |text| && lo <= hi <= |s|
    requires Ink(text, ti0, end) == Ink(s, lo, hi)
    requires start < 0 ==> Ink(s, lo, hi) == ""
    requires start >= 0 ==> ti0 <= start < end && Ink(text, ti0, start) == "" && !IsSpace(text[start])
    requires lo < hi && !IsSpace(s[hi - 1]) ==> end > ti0 && !IsSpace(text[end - 1])
    ensures IsMatch(text, s, ti0, lo, hi, start, end)
  {
  }

  // ---------- locateSpan ----------

  /** The content of sub continues the text at position b. */
  ghost predicate Fits(text: string, sub: string, b: nat) {
    b < |text| && !IsSpace(text[b]) && NonSpace(sub) <= InkFrom(text, b)
  }

  function From(from: int): nat { if from < 0 then 0 else from }

  /** [start, end) is the first stretch at or after from with the content of sub. */
  ghost predicate IsSpan(text: string, sub: string, from: int, start: int, end: int) {
    && From(from) <= start < end <= |text|
    && Ink(text, start, end) == NonSpace(sub)
    && !IsSpace(text[start]) && !IsSpace(text[end - 1])
    && forall b :: From(from) <= b < start ==> !Fits(text, sub, b)
  }

  /** The trimmed needle has the same content. */
  method TrimBounds(s: string) returns (lo: nat, hi: nat)
    ensures lo <= hi <= |s| && Ink(s, lo, hi) == NonSpace(s)
    ensures lo < hi ==> !IsSpace(s[lo]) && !IsSpace(s[hi - 1])
    ensures lo == hi <==> NonSpace(s) == ""
  {
    hide IsSpace;
    lo := SkipSpace(s, 0, |s|);
    hi := |s|;
    InkSplit(s, 0, lo, |s|);
    while hi > lo && IsSpace(s[hi - 1])
      invariant lo <= hi <= |s| && Ink(s, lo, hi) == NonSpace(s)
    {
      hi := hi - 1;
    }
    if lo < hi {
      InkFront(s, lo, hi);
    }
  }

  method LocateSpan(text: string, sub: string, from: int) returns (start: int, end: int)
    ensures start >= 0 <==> NonSpace(sub) != "" && exists b :: From(from) <= b && Fits(text, sub, b)
    ensures start >= 0 ==> IsSpan(text, sub, from, start, end)
    ensures start < 0 ==> start == -1 && end == -1
  {
    hide IsSpace, Ink, InkFrom, NonSpace, IsMatch;
    var s := sub;
    var lo, hi := TrimBounds(s);
    if lo >= hi {
      return -1, -1;
    }
    var begin: nat := From(from);
    while begin < |text|
      invariant From(from) <= begin
      invariant forall b :: From(from) <= b < begin ==> !Fits(text, sub, b)
    {
      if IsSpace(text[begin]) {
        begin := begin + 1;
        continue;
      }
      if text[begin] != s[lo] {
        MismatchAt(text, s, begin, lo, hi);
        begin := begin + 1;
        continue;
      }
      var ok;
      start, end, ok := MatchFrom(text, s, begin, lo, hi);
      if ok {
        MatchStartsHere(text, s, begin, lo, hi, start, end);
        assert Fits(text, sub, begin);
        return;
      }
      begin := begin + 1;
    }
    return -1, -1;
  }

  lemma MatchStartsHere(text: string, s: string, begin: nat, lo: nat, hi: nat, start: int, end: int)
    requires begin < |text| && !IsSpace(text[begin])
    requires lo < hi <= |s| && !IsSpace(s[hi - 1]) && Ink(s, lo, hi) != ""
    requires IsMatch(text, s, begin, lo, hi, start, end)
    ensures start == begin < end <= |text| && Ink(text, begin, end) == Ink(s, lo, hi) && !IsSpace(text[end - 1])
  {
    if start > begin {
      InkFront(text, begin, start);
    }
    hide Ink;
  }

  // ---------- chunk ids ----------

  function Digit(n: nat): char
    requires n < 10
  {
    '0' + n as char
  }

  /** The decimal numeral of n. */
  function Numeral(n: nat): (s: string)
    ensures s != "" && forall k :: 0 <= k < |s| ==> '0' <= s[k] <= '9'
  {
    if n < 10 then [Digit(n)] else Numeral(n / 10) + [Digit(n % 10)]
  }

  function Value(s: string): nat
    requires forall k :: 0 <= k < |s| ==> '0' <= s[k] <= '9'
  {
    if s == "" then 0 else Value(s[..|s| - 1]) * 10 + (s[|s| - 1] - '0') as nat
  }

  /** A numeral can be read back. */
  lemma {:induction false} NumeralRoundTrip(n: nat)
    ensures Value(Numeral(n)) == n
  {
    if n >= 10 {
      NumeralRoundTrip(n / 10);
      var s := Numeral(n);
      assert s[..|s| - 1] == Numeral(n / 10);
    } else {
      assert Value("") == 0;
      assert [Digit(n)][..0] == "";
    }
  }

  function Pow10(k: nat): nat { if k == 0 then 1 else 10 * Pow10(k - 1) }

  /** Go's int. */
  const MAX_INT := 0x7FFF_FFFF_FFFF_FFFF

  lemma TwentyDigits()
    ensures MAX_INT < Pow10(20)
  {
    assert Pow10(5) == 100000;
    assert Pow10(10) == 10000000000;
    assert Pow10(15) == 1000000000000000;
  }

  /** itoa: digits are written backwards into a 20-byte buffer, which is always enough. */
  method Itoa(n: nat) returns (s: string)
    requires n <= MAX_INT
    ensures s == Numeral(n)
  {
    if n == 0 {
      return "0";
    }
    var b := new char[20];
    var i := b.Length;
    var left := n;
    TwentyDigits();
    assert b[i..] == "";
    hide Pow10, Numeral;
    while left > 0
      invariant 0 <= i <= b.Length && left < PowerOf(i)
      invariant Numeral(n) == (if left > 0 then Numeral(left) else "") + b[i..]
      decreases left
    {
      PowerStep(left, i);
      NumeralStep(left, b[i..]);
      ghost var tail := b[i..];
      i := i - 1;
      b[i] := Digit(left % 10);
      assert b[i..] == [Digit(left % 10)] + tail;
      left := left / 10;
    }
    s := b[i..];
  }

  ghost function PowerOf(i: nat): nat { Pow10(i) }

  lemma PowerStep(left: nat, i: nat)
    requires 0 < left < PowerOf(i)
    ensures i > 0 && left / 10 < PowerOf(i - 1)
  {
  }

  lemma NumeralStep(left: nat, tail: string)
    requires left > 0
    ensures Numeral(left) + tail == (if left / 10 > 0 then Numeral(left / 10) else "") + ([Digit(left % 10)] + tail)
  {
    hide Digit;
    if left >= 10 {
      assert Numeral(left / 10) + [Digit(left % 10)] + tail == Numeral(left / 10) + ([Digit(left % 10)] + tail);
    }
  }

  function ChunkId(doc: string, pos: nat): string { doc + "#" + Numeral(pos) }

  /** A chunk id names one document and one position: its last '#' is the separator. */
  lemma ChunkIdsAreUnique(doc: string, pos: nat, doc': string, pos': nat)
    requires ChunkId(doc, pos) == ChunkId(doc', pos')
    ensures doc == doc' && pos == pos'
  {
    var a, b := ChunkId(doc, pos), ChunkId(doc', pos');
    assert a[|doc|] == '#' && b[|doc'|] == '#';
    assert forall k :: |doc| < k < |a| ==> a[k] == Numeral(pos)[k - |doc| - 1];
    assert forall k :: |doc'| < k < |b| ==> b[k] == Numeral(pos')[k - |doc'| - 1];
    assert |doc| == |doc'|;
    assert a[..|doc|] == doc && b[..|doc'|] == doc';
    assert a[|doc| + 1..] == Numeral(pos) && b[|doc'| + 1..] == Numeral(pos');
    NumeralRoundTrip(pos);
    NumeralRoundTrip(pos');
  }

  // ---------- chunkDoc ----------

  datatype Piece = Piece(text: string, headings: seq<string>)

  datatype Chunk = Chunk(id: string, docId: string, pos: nat, text: string, start: int, end: int)

  function Texts(pieces: seq<Piece>): seq<string> {
    seq(|pieces|, i requires 0 <= i < |pieces| => pieces[i].text)
  }

  function ChunkText(p: Piece): string {
    if |p.headings| > 0 then Join(p.headings, " > ") + "\n" + p.text else p.text
  }

  /** Chunk i of the document: its id and text, and where its piece was found. */
  ghost predicate IsChunkOf(c: Chunk, doc: string, text: string, p: Piece, i: nat) {
    && c.id == ChunkId(doc, i) && c.docId == doc && c.pos == i && c.text == ChunkText(p)
    && (c.start < 0 ==> c.start == -1 && c.end == -1)
    && (c.start >= 0 ==> c.start < c.end <= |text| && !IsSpace(text[c.start]) && !IsSpace(text[c.end - 1]) &&
                         Ink(text, c.start, c.end) == NonSpace(p.text))
  }

  /** Every piece that was found starts no earlier than those found before it. */
  ghost predicate StartsAscend(chunks: seq<Chunk>) {
    forall i, j :: 0 <= i < j < |chunks| && chunks[j].start >= 0 ==> chunks[i].start <= chunks[j].start
  }

  /** The pieces of a built-in strategy are all found, in order. */
  ghost predicate AllFound(chunks: seq<Chunk>) {
    forall i :: 0 <= i < |chunks| ==> chunks[i].start >= 0
  }

  /** chunkDoc over the pieces of a splitter. */
  method ChunkDoc(doc: string, text: string, pieces: seq<Piece>, ghost overlap: int) returns (out: seq<Chunk>)
    requires |pieces| <= MAX_INT
    ensures |out| == |pieces| && forall i :: 0 <= i < |out| ==> IsChunkOf(out[i], doc, text, pieces[i], i)
    ensures StartsAscend(out)
    ensures Covers(Texts(pieces), overlap, NonSpace(text)) ==> AllFound(out)
  {
    out := [];
    var cursor := 0;
    ghost var covered := Covers(Texts(pieces), overlap, NonSpace(text));
    hide *;
    EmptyChunks();
    for i := 0 to |pieces|
      invariant |out| == i && forall k :: 0 <= k < i ==> IsChunkOf(out[k], doc, text, pieces[k], k)
      invariant StartsAscend(out) && CursorAtLast(out, cursor)
      invariant covered ==> AllFound(out) && CursorBehind(text, pieces, overlap, cursor, i)
    {
      var p := pieces[i];
      var start, end := LocateSpan(text, p.text, cursor);
      if covered {
        PieceIsFound(text, pieces, overlap, cursor, i, start, end);
      }
      var num := Itoa(i);
      var c := Chunk(doc + "#" + num, doc, i, ChunkText(p), start, end);
      NextChunk(out, cursor, c, doc, text, p, i);
      out := out + [c];
      if start >= 0 {
        cursor := start;
      }
    }
  }

  /** cursor is the last start found. */
  ghost predicate CursorAtLast(chunks: seq<Chunk>, cursor: int) {
    cursor >= 0 && forall i :: 0 <= i < |chunks| ==> chunks[i].start <= cursor
  }

  lemma EmptyChunks()
    ensures StartsAscend([]) && CursorAtLast([], 0) && AllFound([])
    ensures forall text, pieces, overlap :: CursorBehind(text, pieces, overlap, 0, 0)
  {
  }

  lemma NextChunk(out: seq<Chunk>, cursor: int, c: Chunk, doc: string, text: string, p: Piece, i: nat)
    requires StartsAscend(out) && CursorAtLast(out, cursor)
    requires c.id == doc + "#" + Numeral(i) && c.docId == doc && c.pos == i && c.text == ChunkText(p)
    requires c.start >= 0 ==> IsSpan(text, p.text, cursor, c.start, c.end)
    requires c.start < 0 ==> c.start == -1 && c.end == -1
    ensures IsChunkOf(c, doc, text, p, i)
    ensures StartsAscend(out + [c]) && CursorAtLast(out + [c], if c.start >= 0 then c.start else cursor)
    ensures c.start >= 0 && AllFound(out) ==> AllFound(out + [c])
  {
    hide Ink, NonSpace, IsSpace, ChunkText, Numeral;
  }

  /** The cursor is at the start of the text, or on content no later than piece i - 1. */
  ghost predicate CursorBehind(text: string, pieces: seq<Piece>, overlap: int, cursor: int, i: nat) {
    if i == 0 then cursor == 0
    else
      0 <= cursor < |text| && !IsSpace(text[cursor]) &&
      i <= |pieces| && Rank(text, cursor) <= Offset(Texts(pieces), overlap, i - 1)
  }

  /** A piece of a covering split is found at or before its own place. */
  lemma PieceIsFound(text: string, pieces: seq<Piece>, overlap: int, cursor: int, i: nat, start: int, end: int)
    requires i < |pieces| && Covers(Texts(pieces), overlap, NonSpace(text))
    requires CursorBehind(text, pieces, overlap, cursor, i)
    requires start >= 0 <==> NonSpace(pieces[i].text) != "" && exists b :: From(cursor) <= b && Fits(text, pieces[i].text, b)
    requires start >= 0 ==> IsSpan(text, pieces[i].text, cursor, start, end)
    ensures start >= 0 && CursorBehind(text, pieces, overlap, start, i + 1)
  {
    hide *;
    var ts, sub := Texts(pieces), pieces[i].text;
    TextAt(pieces, i);
    PiecesLieInOrder(ts, overlap, NonSpace(text), i);
    var o := Offset(ts, overlap, i);
    NonSpaceIs(text);
    var b := PositionOfRank(text, o, |text|);
    FitsAt(text, sub, o, b);
    CursorNotPast(text, cursor, b, i, pieces, overlap);
    SpanNotAfter(text, sub, cursor, start, end, b);
    RankGrows(text, start, b);
    CursorMoves(text, pieces, overlap, start, i);
  }

  lemma TextAt(pieces: seq<Piece>, i: nat)
    requires i < |pieces|
    ensures |Texts(pieces)| == |pieces| && Texts(pieces)[i] == pieces[i].text
  {
  }

  lemma FitsAt(text: string, sub: string, o: nat, b: nat)
    requires b < |text| && !IsSpace(text[b]) && Rank(text, b) == o
    requires o + |NonSpace(sub)| <= |NonSpace(text)| && NonSpace(text)[o..o + |NonSpace(sub)|] == NonSpace(sub)
    ensures Fits(text, sub, b)
  {
    hide Ink, IsSpace, NonSpace, Rank;
    InkTotal(text, b);
    SliceIsPrefix(NonSpace(text), o, NonSpace(sub));
  }

  lemma SpanNotAfter(text: string, sub: string, from: int, start: int, end: int, b: nat)
    requires From(from) <= b && Fits(text, sub, b) && IsSpan(text, sub, from, start, end)
    ensures 0 <= start <= b && start < |text| && !IsSpace(text[start])
  {
    hide Fits, Ink, NonSpace, IsSpace;
  }

  lemma CursorMoves(text: string, pieces: seq<Piece>, overlap: int, start: int, i: nat)
    requires 0 <= start < |text| && !IsSpace(text[start]) && i < |pieces|
    requires i < |Texts(pieces)| && Rank(text, start) <= Offset(Texts(pieces), overlap, i)
    ensures CursorBehind(text, pieces, overlap, start, i + 1)
  {
    hide Rank, Offset, IsSpace;
  }

  lemma SliceIsPrefix(s: string, o: nat, t: string)
    requires o + |t| <= |s| && s[o..o + |t|] == t
    ensures t <= s[o..]
  {
    assert s[o..][..|t|] == s[o..o + |t|];
  }

  lemma CursorNotPast(text: string, cursor: int, b: nat, i: nat, pieces: seq<Piece>, overlap: int)
    requires i < |pieces| && CursorBehind(text, pieces, overlap, cursor, i)
    requires b < |text| && !IsSpace(text[b]) && Rank(text, b) == Offset(Texts(pieces), overlap, i)
    requires i > 0 ==> Offset(Texts(pieces), overlap, i - 1) <= Offset(Texts(pieces), overlap, i)
    ensures From(cursor) <= b
  {
    hide Offset, Rank, IsSpace;
    if i > 0 && b < cursor {
      RankGrows(text, b, cursor);
    }
  }
}
