/** Splitting a document's text into overlapping pieces: rag/chunkers.go. Every
    strategy covers the text: dropping from each piece what it repeats of the piece
    before gives back all non-space content, in order. */
module Chunkers {
  import opened Text

  // ---------- what a split promises ----------

  /** The content that the next piece repeats of this one. */
  ghost function Carried(piece: string, overlap: int): string { NonSpace(LastWords(piece, overlap)) }

  ghost function Drop(s: string, k: nat): string { if k <= |s| then s[k..] else "" }

  /** What the pieces before repeat at the start of the next one. */
  ghost function Seam(pieces: seq<string>, overlap: int): string {
    if |pieces| == 0 then "" else Carried(pieces[|pieces| - 1], overlap)
  }

  /** The pieces glued together, each without what it repeats. */
  ghost function Stitch(pieces: seq<string>, overlap: int): string {
    if |pieces| == 0 then ""
    else
      var before := pieces[..|pieces| - 1];
      Stitch(before, overlap) + Drop(NonSpace(pieces[|pieces| - 1]), |Seam(before, overlap)|)
  }

  /** No piece is blank, and each starts with what it repeats. */
  ghost predicate Chained(pieces: seq<string>, overlap: int) {
    if |pieces| == 0 then true
    else
      var before, last := pieces[..|pieces| - 1], NonSpace(pieces[|pieces| - 1]);
      Chained(before, overlap) && last != "" && Seam(before, overlap) <= last
  }

  /** The pieces cover exactly the content of text. */
  ghost predicate Covers(pieces: seq<string>, overlap: int, content: string) {
    Chained(pieces, overlap) && Stitch(pieces, overlap) == content
  }

  lemma CoversNone(overlap: int)
    ensures Covers([], overlap, "") && Seam([], overlap) == ""
  {
  }

  /** One more piece. */
  lemma CoversNext(pieces: seq<string>, overlap: int, content: string, piece: string, more: string)
    requires Covers(pieces, overlap, content) && NonSpace(piece) != ""
    requires NonSpace(piece) == Seam(pieces, overlap) + more
    ensures Covers(pieces + [piece], overlap, content + more)
    ensures Seam(pieces + [piece], overlap) == Carried(piece, overlap)
  {
    var all := pieces + [piece];
    assert all[..|all| - 1] == pieces;
    hide NonSpace, Carried;
  }

  // ---------- packFragments ----------

  /** cur holds what the emitted pieces carry over, then the content not yet emitted. */
  ghost predicate Pending(out: seq<string>, overlap: int, cur: seq<string>, words: nat, done: string, fresh': string) {
    && Covers(out, overlap, done)
    && Flat(Inks(cur)) == Seam(out, overlap) + fresh'
    && words == WordCount(Join(cur, " "))
  }

  lemma {:induction false} FieldsConcat(a: string, b: string)
    requires a == "" || IsSpace(a[|a| - 1])
    ensures Fields(a + b) == Fields(a) + Fields(b)
    decreases |b|
  {
    hide *;
    FieldsNone();
    if b == "" {
      assert a + b == a;
      assert Fields(a) + [] == Fields(a);
    } else {
      var n := |b| - 1;
      FieldsConcat(a, b[..n]);
      assert b == b[..n] + [b[n]];
      FieldsConcatNext(a, b[..n], b[n]);
    }
  }

  lemma FieldsConcatNext(a: string, b: string, c: char)
    requires (a == "" || IsSpace(a[|a| - 1])) && Fields(a + b) == Fields(a) + Fields(b)
    ensures Fields(a + (b + [c])) == Fields(a) + Fields(b + [c])
  {
    hide *;
    FieldsOfNext(b, c);
    FieldsOfNext(a + b, c);
    InWordConcat(a, b);
    OneMoreRune(a, b, c);
    NextFieldsConcat(Fields(a), Fields(b), c, InWord(b));
  }

  /** The fields of a text with one more rune. */
  function NextFields(ws: seq<string>, c: char, inWord: bool): seq<string>
    requires inWord ==> ws != []
  {
    if IsSpace(c) then ws else if inWord then Grow(ws, c) else ws + [[c]]
  }

  lemma FieldsOfNext(s: string, c: char)
    ensures InWord(s) ==> Fields(s) != []
    ensures Fields(s + [c]) == NextFields(Fields(s), c, InWord(s))
  {
    FieldsNext(s, c);
    hide Fields, Grow, IsSpace;
  }

  lemma NextFieldsConcat(a: seq<string>, b: seq<string>, c: char, inWord: bool)
    requires inWord ==> b != []
    ensures NextFields(a + b, c, inWord) == a + NextFields(b, c, inWord)
  {
    hide Grow, IsSpace;
    if inWord {
      GrowConcat(a, b, c);
    }
    assert (a + b) + [[c]] == a + (b + [[c]]);
  }

  lemma OneMoreRune(a: string, b: string, c: char)
    ensures a + (b + [c]) == (a + b) + [c]
  {
  }

  predicate InWord(s: string) { s != "" && !IsSpace(s[|s| - 1]) }

  lemma InWordConcat(a: string, b: string)
    requires a == "" || IsSpace(a[|a| - 1])
    ensures InWord(a + b) <==> InWord(b)
  {
    hide IsSpace;
    if b == "" {
      assert a + b == a;
    } else {
      assert (a + b)[|a + b| - 1] == b[|b| - 1];
    }
  }

  lemma GrowConcat(a: seq<string>, b: seq<string>, c: char)
    requires b != []
    ensures Grow(a + b, c) == a + Grow(b, c)
  {
  }

  lemma PendingNone(overlap: int)
    ensures Pending([], overlap, [], 0, "", "")
  {
    CoversNone(overlap);
    FieldsNone();
    FlatNone();
    assert Inks([]) == [];
  }

  /** Appending a trimmed fragment. */
  lemma PendingMore(out: seq<string>, overlap: int, cur: seq<string>, words: nat, done: string, fresh': string, f: string)
    requires Pending(out, overlap, cur, words, done, fresh')
    ensures Pending(out, overlap, cur + [Trim(f)], words + WordCount(f), done, fresh' + NonSpace(f))
  {
    hide Covers, NonSpace, Fields, Seam, Trim, Inks, IsSpace;
    TrimKeeps(f);
    InksSnoc(cur, Trim(f));
    WordsOfJoin(cur, Trim(f));
  }

  lemma WordsOfJoin(cur: seq<string>, x: string)
    ensures WordCount(Join(cur + [x], " ")) == WordCount(Join(cur, " ")) + WordCount(x)
  {
    FieldsNone();
    assert (cur + [x])[..|cur|] == cur;
    if |cur| > 0 {
      var head := Join(cur, " ") + " ";
      FieldsConcat(head, x);
      FieldsSpace(Join(cur, " "), ' ');
    }
  }

  /** Emitting the pending content, and starting over with its last words. */
  lemma PendingFlush(out: seq<string>, overlap: int, cur: seq<string>, words: nat, done: string, fresh': string)
    returns (piece: string)
    requires Pending(out, overlap, cur, words, done, fresh') && words > 0
    ensures piece == Trim(Join(cur, " ")) && piece != "" && WordCount(piece) == words
    ensures LastWords(piece, overlap) == LastWords(Join(cur, " "), overlap)
    ensures Covers(out + [piece], overlap, done + fresh') && Seam(out + [piece], overlap) == Carried(piece, overlap)
  {
    var all := Join(cur, " ");
    piece := Trim(all);
    TrimKeeps(all);
    JoinInk(cur);
    FieldsEmpty(all);
    hide Covers, NonSpace, Fields, Seam, Inks, Trim, Carried;
    CoversNext(out, overlap, done, piece, fresh');
  }

  lemma PendingTail(out: seq<string>, overlap: int, piece: string, done: string)
    requires Covers(out + [piece], overlap, done) && Seam(out + [piece], overlap) == Carried(piece, overlap)
    ensures LastWords(piece, overlap) == "" ==> Pending(out + [piece], overlap, [], 0, done, "")
    ensures Pending(out + [piece], overlap, [LastWords(piece, overlap)], WordCount(LastWords(piece, overlap)), done, "")
  {
    var tail := LastWords(piece, overlap);
    FieldsNone();
    FlatNone();
    assert Inks([]) == [];
    InksSnoc([], tail);
    assert [] + [tail] == [tail];
    assert NonSpace("") == "";
    hide Covers, LastWords, Fields, Seam, Inks, NonSpace;
  }

  lemma TailWords(s: string, n: int)
    ensures n <= 0 ==> LastWords(s, n) == ""
    ensures WordCount(LastWords(s, n)) <= Larger(n, 0)
  {
    hide Fields, Words, IsWord;
    FieldsNone();
    var f := Fields(s);
    if n >= |f| {
      FieldsOfJoin(f);
    } else if n > 0 {
      WordsTail(f, |f| - n);
      FieldsOfJoin(f[|f| - n..]);
    }
  }

  lemma WordsTail(ws: seq<string>, k: nat)
    requires Words(ws) && k <= |ws|
    ensures Words(ws[k..])
  {
    hide IsWord;
  }

  /** At most this many words in every piece. */
  ghost predicate Within(pieces: seq<string>, bound: int) {
    forall k :: 0 <= k < |pieces| ==> WordCount(pieces[k]) <= bound
  }

  /** The first n pieces had no room for another fragment of cap words. */
  ghost predicate Filled(pieces: seq<string>, n: int, target: int, cap: nat) {
    forall k :: 0 <= k < |pieces| && k < n ==> WordCount(pieces[k]) + cap > target
  }

  lemma FilledNext(pieces: seq<string>, p: string, target: int, cap: nat)
    requires Filled(pieces, |pieces|, target, cap)
    ensures Filled(pieces + [p], |pieces|, target, cap)
    ensures WordCount(p) + cap > target ==> Filled(pieces + [p], |pieces| + 1, target, cap)
  {
    hide Fields;
  }

  function Larger(x: int, y: int): int { if x < y then y else x }

  /** The packing loop after i fragments: everything so far is either covered by the
      pieces or pending. */
  ghost predicate Packing(frags: seq<string>, i: nat, out: seq<string>, cur: seq<string>, words: nat,
                          target: int, overlap: int, cap: nat)
  {
    && i <= |frags|
    && Filled(out, |out|, target, cap)
    && Within(out, Larger(target, cap + Larger(overlap, 0)))
    && (words > 0 ==> words <= Larger(target, cap + Larger(overlap, 0)))
    && PendingOf(out, overlap, cur, words, Flat(Inks(frags[..i])))
  }

  /** out and cur together hold content. */
  ghost predicate PendingOf(out: seq<string>, overlap: int, cur: seq<string>, words: nat, content: string) {
    exists done, fresh' :: Pending(out, overlap, cur, words, done, fresh') && done + fresh' == content
  }

  lemma PendingIsOf(out: seq<string>, overlap: int, cur: seq<string>, words: nat, done: string, fresh': string)
    requires Pending(out, overlap, cur, words, done, fresh')
    ensures PendingOf(out, overlap, cur, words, done + fresh')
  {
    hide Pending;
  }

  lemma PendingParts(out: seq<string>, overlap: int, cur: seq<string>, words: nat, content: string)
    returns (done: string, fresh': string)
    requires PendingOf(out, overlap, cur, words, content)
    ensures Pending(out, overlap, cur, words, done, fresh') && done + fresh' == content
  {
    hide Pending;
    done, fresh' :| Pending(out, overlap, cur, words, done, fresh') && done + fresh' == content;
  }

  lemma PackingIs(frags: seq<string>, i: nat, out: seq<string>, cur: seq<string>, words: nat,
                  target: int, overlap: int, cap: nat)
    ensures Packing(frags, i, out, cur, words, target, overlap, cap)
       <==> && i <= |frags|
            && Filled(out, |out|, target, cap)
            && Within(out, Larger(target, cap + Larger(overlap, 0)))
            && (words > 0 ==> words <= Larger(target, cap + Larger(overlap, 0)))
            && PendingOf(out, overlap, cur, words, Flat(Inks(frags[..i])))
  {
  }

  lemma PackingStarts(frags: seq<string>, target: int, overlap: int, cap: nat)
    ensures Packing(frags, 0, [], [], 0, target, overlap, cap)
  {
    hide Fields, NonSpace;
    PendingNone(overlap);
    assert Inks(frags[..0]) == [];
    FlatNone();
    PendingIsOf([], overlap, [], 0, "", "");
    assert "" + "" == "";
  }

  /** Emitting a piece that has no room for f, and carrying its last words over. */
  lemma PackingFlush(frags: seq<string>, i: nat, out: seq<string>, cur: seq<string>, words: nat,
                     target: int, overlap: int, cap: nat, w: nat) returns (piece: string)
    requires Packing(frags, i, out, cur, words, target, overlap, cap) && words > 0 && words + w > target && w <= cap
    ensures piece == Trim(Join(cur, " ")) && piece != ""
    ensures overlap <= 0 || LastWords(Join(cur, " "), overlap) == "" ==>
              Packing(frags, i, out + [piece], [], 0, target, overlap, cap)
    ensures var tail := LastWords(Join(cur, " "), overlap);
            Packing(frags, i, out + [piece], [tail], WordCount(tail), target, overlap, cap)
            && WordCount(tail) <= Larger(overlap, 0)
  {
    hide *;
    PackingIs(frags, i, out, cur, words, target, overlap, cap);
    var done, fresh' := PendingParts(out, overlap, cur, words, Flat(Inks(frags[..i])));
    piece := PendingFlush(out, overlap, cur, words, done, fresh');
    WithinNext(out, Larger(target, cap + Larger(overlap, 0)), piece);
    FilledNext(out, piece, target, cap);
    PendingTail(out, overlap, piece, done + fresh');
    TailWords(Join(cur, " "), overlap);
    var tail := LastWords(Join(cur, " "), overlap);
    PackingIs(frags, i, out + [piece], [tail], WordCount(tail), target, overlap, cap);
    PackingIs(frags, i, out + [piece], [], 0, target, overlap, cap);
    assert (done + fresh') + "" == done + fresh';
    PendingIsOf(out + [piece], overlap, [tail], WordCount(tail), done + fresh', "");
    if overlap <= 0 || tail == "" {
      PendingIsOf(out + [piece], overlap, [], 0, done + fresh', "");
    }
    LargerIs(target, cap + Larger(overlap, 0));
    LargerIs(overlap, 0);
  }

  lemma LargerIs(x: int, y: int)
    ensures Larger(x, y) >= x && Larger(x, y) >= y && (Larger(x, y) == x || Larger(x, y) == y)
  {
  }

  lemma PackingAppend(frags: seq<string>, i: nat, out: seq<string>, cur: seq<string>, words: nat,
                      target: int, overlap: int, cap: nat)
    requires Packing(frags, i, out, cur, words, target, overlap, cap) && i < |frags| && WordCount(frags[i]) <= cap
    requires words > 0 && words + WordCount(frags[i]) > target ==> words <= Larger(overlap, 0)
    ensures Packing(frags, i + 1, out, cur + [Trim(frags[i])], words + WordCount(frags[i]), target, overlap, cap)
  {
    hide *;
    PackingIs(frags, i, out, cur, words, target, overlap, cap);
    var f := frags[i];
    var done, fresh' := PendingParts(out, overlap, cur, words, Flat(Inks(frags[..i])));
    assert frags[..i + 1] == frags[..i] + [f];
    InksSnoc(frags[..i], f);
    PendingMore(out, overlap, cur, words, done, fresh', f);
    assert done + (fresh' + NonSpace(f)) == (done + fresh') + NonSpace(f);
    PendingIsOf(out, overlap, cur + [Trim(f)], words + WordCount(f), done, fresh' + NonSpace(f));
    PackingIs(frags, i + 1, out, cur + [Trim(f)], words + WordCount(f), target, overlap, cap);
    LargerIs(target, cap + Larger(overlap, 0));
    LargerIs(overlap, 0);
  }

  /** The last flush. */
  lemma PackingDone(frags: seq<string>, out: seq<string>, cur: seq<string>, words: nat,
                    target: int, overlap: int, cap: nat)
    requires Packing(frags, |frags|, out, cur, words, target, overlap, cap)
    ensures words > 0 ==> Trim(Join(cur, " ")) != ""
    ensures var all := if words > 0 then out + [Trim(Join(cur, " "))] else out;
            && Covers(all, overlap, Flat(Inks(frags)))
            && Within(all, Larger(target, cap + Larger(overlap, 0)))
            && Filled(all, |all| - 1, target, cap)
  {
    hide *;
    PackingIs(frags, |frags|, out, cur, words, target, overlap, cap);
    assert frags[..|frags|] == frags;
    var done, fresh' := PendingParts(out, overlap, cur, words, Flat(Inks(frags)));
    if words > 0 {
      var piece := PendingFlush(out, overlap, cur, words, done, fresh');
      WithinNext(out, Larger(target, cap + Larger(overlap, 0)), piece);
      FilledNext(out, piece, target, cap);
    } else {
      FilledFewer(out, target, cap);
      PendingEmpty(out, overlap, cur, done, fresh');
    }
  }

  // ----- fragments stay whole -----

  /** What piece k takes over from the piece before. */
  function Lead(out: seq<string>, k: nat, overlap: int): seq<string>
    requires k <= |out|
  {
    if k == 0 || overlap <= 0 || LastWords(out[k - 1], overlap) == "" then [] else [LastWords(out[k - 1], overlap)]
  }

  function Trims(frags: seq<string>): seq<string> { seq(|frags|, i requires 0 <= i < |frags| => Trim(frags[i])) }

  /** Piece k is the fragments from cuts[k] to cuts[k + 1], whole, behind what it takes over. */
  ghost predicate PieceIs(frags: seq<string>, overlap: int, cuts: seq<nat>, out: seq<string>, k: nat) {
    && k < |out| && k + 1 < |cuts| && cuts[k] < cuts[k + 1] <= |frags|
    && out[k] == Trim(Join(Lead(out, k, overlap) + Trims(frags[cuts[k]..cuts[k + 1]]), " "))
  }

  ghost predicate Blank(frags: seq<string>, from: nat, to: nat) {
    forall i :: from <= i < to && i < |frags| ==> WordCount(frags[i]) == 0
  }

  /** The pieces are consecutive runs of whole fragments; only blank ones are left over. */
  ghost predicate WholeRuns(frags: seq<string>, overlap: int, cuts: seq<nat>, out: seq<string>) {
    && |cuts| == |out| + 1 && cuts[0] == 0 && (forall k :: 0 <= k < |out| ==> PieceIs(frags, overlap, cuts, out, k))
    && cuts[|out|] <= |frags| && Blank(frags, cuts[|out|], |frags|)
  }

  /** The same while fragment i is next and cur is the run under way. */
  ghost predicate RunsTo(frags: seq<string>, overlap: int, cuts: seq<nat>, out: seq<string>, i: nat, cur: seq<string>, words: nat) {
    && |cuts| == |out| + 1 && cuts[0] == 0 && (forall k :: 0 <= k < |out| ==> PieceIs(frags, overlap, cuts, out, k))
    && cuts[|out|] <= i <= |frags| && (cuts[|out|] < i || words == 0)
    && cur == Lead(out, |out|, overlap) + Trims(frags[cuts[|out|]..i])
    && (words == 0 ==> Blank(frags, cuts[|out|], i))
  }

  lemma RunsStart(frags: seq<string>, overlap: int)
    ensures RunsTo(frags, overlap, [0], [], 0, [], 0)
  {
  }

  lemma PiecesStay(frags: seq<string>, overlap: int, cuts: seq<nat>, out: seq<string>, c: nat, p: string)
    requires |cuts| == |out| + 1 && forall k :: 0 <= k < |out| ==> PieceIs(frags, overlap, cuts, out, k)
    ensures forall k :: 0 <= k < |out| ==> PieceIs(frags, overlap, cuts + [c], out + [p], k)
  {
    hide LastWords, Trim;
    forall k | 0 <= k < |out| ensures PieceIs(frags, overlap, cuts + [c], out + [p], k) {
      assert PieceIs(frags, overlap, cuts, out, k);
      assert Lead(out + [p], k, overlap) == Lead(out, k, overlap);
    }
  }

  /** A flush closes the run, and the next one starts with what it takes over. */
  lemma RunsFlush(frags: seq<string>, overlap: int, cuts: seq<nat>, out: seq<string>, i: nat, cur: seq<string>, words: nat)
    requires RunsTo(frags, overlap, cuts, out, i, cur, words) && words > 0
    ensures var p := Trim(Join(cur, " "));
            && (forall k :: 0 <= k < |out| + 1 ==> PieceIs(frags, overlap, cuts + [i], out + [p], k))
            && |cuts| == |out| + 1 && (cuts + [i])[0] == 0 && (cuts + [i])[|out| + 1] == i <= |frags|
  {
    var p := Trim(Join(cur, " "));
    PiecesStay(frags, overlap, cuts, out, i, p);
    hide LastWords, Trim, Trims;
    assert Lead(out + [p], |out|, overlap) == Lead(out, |out|, overlap);
    hide PieceIs;
    assert PieceIs(frags, overlap, cuts + [i], out + [p], |out|) by {
      NewPiece(frags, overlap, cuts, out, i, p);
    }
  }

  lemma NewPiece(frags: seq<string>, overlap: int, cuts: seq<nat>, out: seq<string>, i: nat, p: string)
    requires |cuts| == |out| + 1 && cuts[|out|] < i <= |frags|
    requires p == Trim(Join(Lead(out + [p], |out|, overlap) + Trims(frags[cuts[|out|]..i]), " "))
    ensures PieceIs(frags, overlap, cuts + [i], out + [p], |out|)
  {
    hide Lead, Trim, Trims;
  }

  /** The tail carried over is that of the piece, and it may be empty only without words. */
  lemma RunsRestart(frags: seq<string>, overlap: int, cuts: seq<nat>, out: seq<string>, i: nat, cur: seq<string>, tail: string, next: seq<string>)
    requires |cuts| == |out| + 2 && cuts[0] == 0 && cuts[|out| + 1] == i <= |frags|
    requires tail == if overlap > 0 then LastWords(Join(cur, " "), overlap) else ""
    requires var p := Trim(Join(cur, " ")); forall k :: 0 <= k < |out| + 1 ==> PieceIs(frags, overlap, cuts, out + [p], k)
    requires next == if tail == "" then [] else [tail]
    ensures var p := Trim(Join(cur, " "));
            next == Lead(out + [p], |out| + 1, overlap) + Trims(frags[i..i]) && frags[i..i] == []
  {
    TrimKeeps(Join(cur, " "));
    SameLastWords(Join(cur, " "), Trim(Join(cur, " ")), overlap);
    hide LastWords, Trim, PieceIs;
    assert Trims(frags[i..i]) == [];
  }

  lemma SameLastWords(s: string, t: string, n: int)
    requires Fields(s) == Fields(t)
    ensures LastWords(s, n) == LastWords(t, n)
  {
    hide Fields;
  }

  lemma RunsAppend(frags: seq<string>, overlap: int, cuts: seq<nat>, out: seq<string>, i: nat, cur: seq<string>, words: nat)
    requires |cuts| == |out| + 1 && cuts[0] == 0 && cuts[|out|] <= i < |frags|
    requires forall k :: 0 <= k < |out| ==> PieceIs(frags, overlap, cuts, out, k)
    requires cur == Lead(out, |out|, overlap) + Trims(frags[cuts[|out|]..i]) && (words == 0 ==> Blank(frags, cuts[|out|], i))
    ensures RunsTo(frags, overlap, cuts, out, i + 1, cur + [Trim(frags[i])], words + WordCount(frags[i]))
  {
    hide PieceIs, Lead, Trim, Fields;
    var c := cuts[|out|];
    assert frags[c..i + 1] == frags[c..i] + [frags[i]];
    assert Trims(frags[c..i + 1]) == Trims(frags[c..i]) + [Trim(frags[i])];
  }

  lemma RunsDone(frags: seq<string>, overlap: int, cuts: seq<nat>, out: seq<string>, cur: seq<string>, words: nat)
    requires RunsTo(frags, overlap, cuts, out, |frags|, cur, words)
    ensures words == 0 ==> WholeRuns(frags, overlap, cuts, out)
    ensures words > 0 ==> WholeRuns(frags, overlap, cuts + [|frags|], out + [Trim(Join(cur, " "))])
  {
    if words > 0 {
      RunsFlush(frags, overlap, cuts, out, |frags|, cur, words);
    }
    hide PieceIs, Lead, Trim, Trims, Fields;
  }

  /** Fragments are packed up to target words; each piece starts with the last overlap
      words of the piece before. No fragment longer than cap means no piece longer than
      cap plus the overlap. */
  method PackFragments(frags: seq<string>, target: int, overlap: int, ghost cap: nat) returns (out: seq<string>, ghost cuts: seq<nat>)
    requires forall k :: 0 <= k < |frags| ==> WordCount(frags[k]) <= cap
    ensures Covers(out, overlap, Flat(Inks(frags)))
    ensures Within(out, Larger(target, cap + Larger(overlap, 0))) && Filled(out, |out| - 1, target, cap)
    // no fragment is cut: every piece is a run of whole ones
    ensures WholeRuns(frags, overlap, cuts, out)
  {
    hide *;
    out, cuts := [], [0];
    var cur: seq<string>, curWords: nat := [], 0;
    PackingStarts(frags, target, overlap, cap);
    RunsStart(frags, overlap);
    for i := 0 to |frags|
      invariant Packing(frags, i, out, cur, curWords, target, overlap, cap)
      invariant RunsTo(frags, overlap, cuts, out, i, cur, curWords)
    {
      var f := frags[i];
      var w := WordCount(f);
      RunsParts(frags, overlap, cuts, out, i, cur, curWords);
      if curWords > 0 && curWords + w > target {
        var tail := "";
        if overlap > 0 {
          tail := LastWords(Join(cur, " "), overlap);
        }
        ghost var p := PackingFlush(frags, i, out, cur, curWords, target, overlap, cap, w);
        RunsFlush(frags, overlap, cuts, out, i, cur, curWords);
        cuts := cuts + [i];
        RunsRestart(frags, overlap, cuts, out, i, cur, tail, if tail == "" then [] else [tail]);
        NothingBlank(frags, i);
        out := Flush(out, cur, curWords);
        cur, curWords := [], 0;
        if tail != "" {
          cur := cur + [tail];
          assert cur == [tail];
          curWords := WordCount(tail);
        }
      }
      PackingAppend(frags, i, out, cur, curWords, target, overlap, cap);
      RunsAppend(frags, overlap, cuts, out, i, cur, curWords);
      cur := cur + [Trim(f)];
      curWords := curWords + w;
    }
    PackingDone(frags, out, cur, curWords, target, overlap, cap);
    RunsDone(frags, overlap, cuts, out, cur, curWords);
    out := Flush(out, cur, curWords);
    if curWords > 0 {
      cuts := cuts + [|frags|];
    }
  }

  lemma RunsParts(frags: seq<string>, overlap: int, cuts: seq<nat>, out: seq<string>, i: nat, cur: seq<string>, words: nat)
    requires RunsTo(frags, overlap, cuts, out, i, cur, words)
    ensures |cuts| == |out| + 1 && cuts[0] == 0 && forall k :: 0 <= k < |out| ==> PieceIs(frags, overlap, cuts, out, k)
    ensures cuts[|out|] <= i <= |frags| && cur == Lead(out, |out|, overlap) + Trims(frags[cuts[|out|]..i])
    ensures words == 0 ==> Blank(frags, cuts[|out|], i)
  {
    hide PieceIs, Lead, Trims, Blank;
  }

  lemma NothingBlank(frags: seq<string>, i: nat)
    ensures Blank(frags, i, i)
  {
  }

  /** The flush closure. */
  method Flush(out: seq<string>, cur: seq<string>, curWords: nat) returns (r: seq<string>)
    ensures r == if curWords == 0 || Trim(Join(cur, " ")) == "" then out else out + [Trim(Join(cur, " "))]
  {
    if curWords == 0 {
      return out;
    }
    var t := Trim(Join(cur, " "));
    r := out;
    if t != "" {
      r := r + [t];
    }
  }

  lemma WithinNext(out: seq<string>, bound: int, p: string)
    requires Within(out, bound) && WordCount(p) <= bound
    ensures Within(out + [p], bound)
  {
    hide Fields;
  }

  lemma FilledFewer(out: seq<string>, target: int, cap: nat)
    requires Filled(out, |out|, target, cap)
    ensures Filled(out, |out| - 1, target, cap)
  {
    hide Fields;
  }

  lemma PendingEmpty(out: seq<string>, overlap: int, cur: seq<string>, done: string, fresh': string)
    requires Pending(out, overlap, cur, 0, done, fresh')
    ensures Covers(out, overlap, done + fresh')
  {
    JoinInk(cur);
    FieldsEmpty(Join(cur, " "));
    hide Covers, NonSpace, Seam, Inks, Fields;
    assert done + fresh' == done;
  }

  // ---------- the word strategy ----------

  /** One more window of words: its first words are the last of the window before. */
  lemma WindowNext(words: seq<string>, out: seq<string>, overlap: nat, start: nat, from: nat, end: nat)
    requires Words(words) && start <= from < end <= |words|
    requires Covers(out, overlap, Flat(words[..from])) && Seam(out, overlap) == Flat(words[start..from])
    ensures Covers(out + [Join(words[start..end], " ")], overlap, Flat(words[..end]))
    ensures WordCount(Join(words[start..end], " ")) == end - start
    ensures overlap <= end - start ==>
              Seam(out + [Join(words[start..end], " ")], overlap) == Flat(words[end - overlap..end])
  {
    hide *;
    var w := words[start..end];
    var piece := Join(w, " ");
    WindowWords(words, start, end);
    JoinOfWords(w);
    FlatSlices(words, start, from, end);
    FlatSlices(words, 0, from, end);
    assert words[0..from] == words[..from] && words[0..end] == words[..end];
    FlatOfWords(w);
    WordCountIs(piece);
    CoversNext(out, overlap, Flat(words[..from]), piece, Flat(words[from..end]));
    if overlap <= end - start {
      LastOfWords(w, overlap);
      assert w[|w| - overlap..] == words[end - overlap..end];
    }
  }

  lemma WindowWords(words: seq<string>, start: nat, end: nat)
    requires Words(words) && start <= end <= |words|
    ensures Words(words[start..end])
  {
    hide IsWord;
  }

  lemma FlatSlices(words: seq<string>, lo: nat, mid: nat, hi: nat)
    requires lo <= mid <= hi <= |words|
    ensures Flat(words[lo..hi]) == Flat(words[lo..mid]) + Flat(words[mid..hi])
  {
    hide Flat;
    assert words[lo..hi] == words[lo..mid] + words[mid..hi];
    FlatConcat(words[lo..mid], words[mid..hi]);
  }

  lemma WordCountIs(s: string)
    ensures WordCount(s) == |Fields(s)|
  {
  }

  lemma JoinOfWords(w: seq<string>)
    requires Words(w)
    ensures NonSpace(Join(w, " ")) == Flat(w) && Fields(Join(w, " ")) == w
  {
    JoinInk(w);
    InksOfWords(w);
    FieldsOfJoin(w);
  }

  lemma LastWordsOf(w: seq<string>, n: nat)
    requires Words(w) && n <= |w|
    ensures LastWords(Join(w, " "), n) == Join(w[|w| - n..], " ")
  {
    hide *;
    JoinOfWords(w);
    LastWordsIs(Join(w, " "), n);
  }

  lemma LastWordsIs(s: string, n: nat)
    requires n <= |Fields(s)|
    ensures LastWords(s, n) == Join(Fields(s)[|Fields(s)| - n..], " ")
  {
    hide Fields;
    var f := Fields(s);
    assert n == |f| ==> f[0..] == f;
    assert n == 0 ==> f[|f|..] == [];
  }

  lemma CarriedIs(s: string, n: int)
    ensures Carried(s, n) == NonSpace(LastWords(s, n))
  {
  }

  lemma LastOfWords(w: seq<string>, n: nat)
    requires Words(w) && n <= |w|
    ensures Carried(Join(w, " "), n) == Flat(w[|w| - n..])
  {
    hide *;
    WindowWords(w, |w| - n, |w|);
    assert w[|w| - n..|w|] == w[|w| - n..];
    LastWordsOf(w, n);
    JoinOfWords(w[|w| - n..]);
    CarriedIs(Join(w, " "), n);
  }

  /** wordChunker.Split: fixed windows of target words. */
  method SplitWords(text: string, target: int, overlap: int) returns (out: seq<string>)
    requires 0 <= overlap < target
    ensures Covers(out, overlap, NonSpace(text))
    ensures Within(out, target) && forall k :: 0 <= k < |out| - 1 ==> WordCount(out[k]) == target
  {
    var words := Fields(text);
    FieldsInk(text);
    CoversNone(overlap);
    hide Fields, NonSpace, Covers, Seam, Flat, IsWord, Join;
    FlatNone();
    if |words| == 0 {
      return [];
    }
    var stride := target - overlap;
    if stride < 1 {
      stride := 1;
    }
    out := [];
    var start: nat := 0;
    ghost var from: nat := 0;
    assert words[..0] == [] && words[0..0] == [];
    while start < |words|
      invariant start <= from < |words| && (from == 0 || from == start + overlap) && start + overlap <= from + overlap
      invariant from == 0 ==> start == 0
      invariant Covers(out, overlap, Flat(words[..from])) && Seam(out, overlap) == Flat(words[start..from])
      invariant forall k :: 0 <= k < |out| ==> WordCount(out[k]) == target
      decreases |words| - start
    {
      var end := if start + target < |words| then start + target else |words|;
      WindowNext(words, out, overlap, start, from, end);
      out := out + [Join(words[start..end], " ")];
      if end == |words| {
        assert words[..end] == words;
        break;
      }
      start := start + stride;
      from := end;
    }
  }

  // ---------- the recursive strategy ----------

  const SEPARATORS: seq<string> := ["\n\n", "\n", ". ", " "]

  /** f is a contiguous stretch of text. */
  ghost predicate IsPart(f: string, text: string) {
    exists lo :: 0 <= lo <= |text| - |f| && StretchAt(f, text, lo)
  }

  predicate StretchAt(f: string, text: string, lo: nat)
    requires lo + |f| <= |text|
  {
    text[lo..lo + |f|] == f
  }

  ghost predicate Unsplittable(f: string, seps: seq<string>) {
    forall j :: 0 <= j < |seps| ==> OnlyAtEnd(f, seps[j])
  }

  lemma SliceOfSlice(t: string, lo: nat, hi: nat, a: nat, b: nat)
    requires lo <= hi <= |t| && a <= b <= hi - lo
    ensures t[lo..hi][a..b] == t[lo + a..lo + b]
  {
    var s := t[lo..hi];
    assert forall k :: 0 <= k < |s| ==> s[k] == t[lo + k];
  }

  lemma PartOfPart(f: string, p: string, text: string)
    requires IsPart(f, p) && IsPart(p, text)
    ensures IsPart(f, text)
  {
    var a :| 0 <= a <= |p| - |f| && StretchAt(f, p, a);
    var b :| 0 <= b <= |text| - |p| && StretchAt(p, text, b);
    SliceOfSlice(text, b, b + |p|, a, a + |f|);
    assert StretchAt(f, text, b + a);
  }

  lemma PartOnlyAtEnd(f: string, p: string, sep: string)
    requires IsPart(f, p) && OnlyAtEnd(p, sep)
    ensures OnlyAtEnd(f, sep)
  {
    var a :| 0 <= a <= |p| - |f| && StretchAt(f, p, a);
    forall k | 0 <= k < |f| - |sep| ensures !OccursAt(f, sep, k) {
      if OccursAt(f, sep, k) {
        SliceOfSlice(p, a, a + |f|, k, k + |sep|);
        assert OccursAt(p, sep, a + k);
      }
    }
  }

  lemma WholeIsPart(text: string)
    ensures IsPart(text, text)
  {
    assert StretchAt(text, text, 0);
  }

  lemma {:induction false} SplitAfterGivesParts(text: string, sep: string)
    requires sep != ""
    ensures forall k :: 0 <= k < |SplitAfter(text, sep)| ==> IsPart(SplitAfter(text, sep)[k], text)
    decreases |text|
  {
    hide SplitAfter, IsPart, OccursAt;
    WholeIsPart(text);
    var i := SplitAfterStep(text, sep);
    if i < |text| {
      var head, rest := text[..i + |sep|], text[i + |sep|..];
      SplitAfterGivesParts(rest, sep);
      SliceIsPart(text, 0, i + |sep|);
      SliceIsPart(text, i + |sep|, |text|);
      assert text[i + |sep|..|text|] == rest;
      forall k | 0 <= k < |SplitAfter(rest, sep)| ensures IsPart(SplitAfter(rest, sep)[k], text) {
        PartOfPart(SplitAfter(rest, sep)[k], rest, text);
      }
    }
  }

  lemma SliceIsPart(text: string, lo: nat, hi: nat)
    requires lo <= hi <= |text|
    ensures IsPart(text[lo..hi], text)
  {
    assert StretchAt(text[lo..hi], text, lo);
  }

  /** A fragment of text: not blank, and within the budget unless no separator splits it. */
  ghost predicate GoodFragment(f: string, text: string, seps: seq<string>, target: int) {
    NonSpace(f) != "" && IsPart(f, text) && (WordCount(f) <= target || Unsplittable(f, seps))
  }

  ghost predicate GoodFragments(frags: seq<string>, text: string, seps: seq<string>, target: int) {
    forall k :: 0 <= k < |frags| ==> GoodFragment(frags[k], text, seps, target)
  }

  /** Fragments of a part are fragments of the text. */
  lemma Deeper(frags: seq<string>, part: string, text: string, seps: seq<string>, target: int)
    requires seps != [] && OnlyAtEnd(part, seps[0])
    requires GoodFragments(frags, part, seps[1..], target) && IsPart(part, text)
    ensures GoodFragments(frags, text, seps, target)
  {
    hide NonSpace, IsPart, OnlyAtEnd, Fields;
    forall k | 0 <= k < |frags| ensures GoodFragment(frags[k], text, seps, target) {
      var f := frags[k];
      assert GoodFragment(f, part, seps[1..], target);
      PartOfPart(f, part, text);
      PartOnlyAtEnd(f, part, seps[0]);
      if Unsplittable(f, seps[1..]) {
        assert forall j :: 0 < j < |seps| ==> seps[j] == seps[1..][j - 1];
      }
    }
  }

  lemma GoodConcat(a: seq<string>, b: seq<string>, text: string, seps: seq<string>, target: int)
    requires GoodFragments(a, text, seps, target) && GoodFragments(b, text, seps, target)
    ensures GoodFragments(a + b, text, seps, target)
  {
    hide GoodFragment;
  }

  /** splitRecursive loses no content. */
  method SplitRecursive(text: string, seps: seq<string>, target: int) returns (out: seq<string>)
    requires forall k :: 0 <= k < |seps| ==> seps[k] != ""
    ensures Flat(Inks(out)) == NonSpace(text) && GoodFragments(out, text, seps, target)
    decreases |seps|
  {
    TrimKeeps(text);
    InksNone();
    FlatNone();
    hide *;
    if WordCount(text) <= target || |seps| == 0 {
      if Trim(text) == "" {
        GoodNone(text, seps, target);
        return [];
      }
      GoodWhole(text, seps, target);
      return [text];
    }
    out := [];
    var parts := SplitAfter(text, seps[0]);
    SplitAfterFlat(text, seps[0]);
    SplitAfterIsFine(text, seps[0]);
    SplitAfterGivesParts(text, seps[0]);
    FlatInks(parts);
    GoodNone(text, seps, target);
    assert parts[..0] == [];
    for i := 0 to |parts|
      invariant Flat(Inks(out)) == Flat(Inks(parts[..i])) && GoodFragments(out, text, seps, target)
    {
      var part := parts[i];
      assert parts[..i + 1] == parts[..i] + [part];
      InksSnoc(parts[..i], part);
      TrimKeeps(part);
      if Trim(part) == "" {
        continue;
      }
      var more;
      if WordCount(part) <= target {
        more := [part];
        GoodWhole(part, seps[1..], target);
      } else {
        more := SplitRecursive(part, seps[1..], target);
      }
      Deeper(more, part, text, seps, target);
      GoodConcat(out, more, text, seps, target);
      InksConcat(out, more);
      out := out + more;
    }
    assert parts[..|parts|] == parts;
  }

  lemma GoodNone(text: string, seps: seq<string>, target: int)
    ensures GoodFragments([], text, seps, target)
  {
  }

  lemma GoodWhole(text: string, seps: seq<string>, target: int)
    requires NonSpace(text) != "" && (WordCount(text) <= target || |seps| == 0)
    ensures GoodFragments([text], text, seps, target) && Flat(Inks([text])) == NonSpace(text)
  {
    WholeIsPart(text);
    assert Inks([text]) == [NonSpace(text)];
    FlatOne(NonSpace(text));
  }

  // ---------- the sentence strategy ----------

  predicate IsDigit(c: char) { '0' <= c <= '9' }

  predicate IsTerminator(c: char) { c == '.' || c == '!' || c == '?' }

  /** The first non-space rune at or after i, or none. */
  function NextNonSpace(runes: string, i: nat): (c: string)
    ensures |c| <= 1
    decreases |runes| - i
  {
    if i >= |runes| then ""
    else if !IsSpace(runes[i]) then [runes[i]]
    else NextNonSpace(runes, i + 1)
  }

  /** The unicode.IsUpper table and the abbreviation guard are parameters. */
  predicate IsBoundary(runes: string, i: nat, isUpper: char -> bool, isAbbrev: string -> bool)
    requires i < |runes|
  {
    var c := runes[i];
    && IsTerminator(c)
    && (i + 1 < |runes| ==> IsSpace(runes[i + 1]))
    && !(c == '.' && isAbbrev(runes[..i + 1]))
    && (c == '.' ==>
          var nx := NextNonSpace(runes, i + 1);
          nx == "" || nx[0] == '\0' || isUpper(nx[0]) || IsDigit(nx[0]))
  }

  ghost predicate EndsSentence(seg: string) { seg != "" && IsTerminator(seg[|seg| - 1]) }

  lemma SentenceCut(text: string, start: nat, i: nat)
    requires start <= i < |text| && IsTerminator(text[i])
    ensures Trim(text[start..i + 1]) != "" && EndsSentence(Trim(text[start..i + 1]))
    ensures NonSpace(Trim(text[start..i + 1])) == Ink(text, start, i + 1)
  {
    hide *;
    var seg := text[start..i + 1];
    TrimKeeps(seg);
    InkOfSlice(text, start, i + 1);
    assert seg[|seg| - 1] == text[i];
    TerminatorIsInk(text[i]);
    TrimEnd(seg);
    EndsSentenceIs(Trim(seg));
  }

  lemma TerminatorIsInk(c: char)
    requires IsTerminator(c)
    ensures !IsSpace(c)
  {
  }

  lemma EndsSentenceIs(seg: string)
    requires seg != "" && IsTerminator(seg[|seg| - 1])
    ensures EndsSentence(seg)
  {
  }

  lemma {:induction false} TrimEnd(s: string)
    requires s != "" && !IsSpace(s[|s| - 1])
    ensures Trim(s) != "" && Trim(s)[|Trim(s)| - 1] == s[|s| - 1]
  {
    if IsSpace(s[0]) {
      TrimEnd(s[1..]);
    }
  }

  // Where the segment behind the first k ends starts.
  function Begin(ends: seq<nat>, k: nat): nat {
    if 0 < k <= |ends| then ends[k - 1] else 0
  }

  function Part(text: string, a: nat, b: nat): string {
    if a <= b <= |text| then text[a..b] else ""
  }

  /** ends are the positions behind the boundaries among the first n runes, in order. */
  ghost predicate EndsAre(text: string, n: nat, ends: seq<nat>, isUpper: char -> bool, isAbbrev: string -> bool) {
    && n <= |text|
    && (forall j, k :: 0 <= j < k < |ends| ==> ends[j] < ends[k])
    && (forall k :: 0 <= k < |ends| ==> 0 < ends[k] <= n && IsBoundary(text, ends[k] - 1, isUpper, isAbbrev))
    && (forall i: nat :: i < n && IsBoundary(text, i, isUpper, isAbbrev) ==> i + 1 in ends)
  }

  /** One trimmed segment per end. */
  ghost predicate SegmentsAre(text: string, ends: seq<nat>, out: seq<string>) {
    |out| == |ends| && forall k :: 0 <= k < |out| ==> out[k] == Trim(Part(text, Begin(ends, k), ends[k]))
  }

  /** The text cut behind every boundary and nowhere else; a blank rest is dropped. */
  ghost predicate AreSentences(text: string, ends: seq<nat>, out: seq<string>) {
    var tail := Trim(Part(text, Begin(ends, |ends|), |text|));
    exists segments :: SegmentsAre(text, ends, segments) && out == segments + if tail == "" then [] else [tail]
  }

  lemma EndsSkip(text: string, i: nat, ends: seq<nat>, isUpper: char -> bool, isAbbrev: string -> bool)
    requires i < |text| && EndsAre(text, i, ends, isUpper, isAbbrev) && !IsBoundary(text, i, isUpper, isAbbrev)
    ensures EndsAre(text, i + 1, ends, isUpper, isAbbrev)
  {
    hide IsBoundary;
  }

  lemma EndsNext(text: string, i: nat, ends: seq<nat>, isUpper: char -> bool, isAbbrev: string -> bool)
    requires i < |text| && EndsAre(text, i, ends, isUpper, isAbbrev) && IsBoundary(text, i, isUpper, isAbbrev)
    ensures EndsAre(text, i + 1, ends + [i + 1], isUpper, isAbbrev)
  {
    hide IsBoundary;
    forall j: nat | j < i + 1 && IsBoundary(text, j, isUpper, isAbbrev) ensures j + 1 in ends + [i + 1] {
      assert j < i ==> j + 1 in ends;
    }
  }

  lemma SegmentsNext(text: string, ends: seq<nat>, out: seq<string>, e: nat)
    requires SegmentsAre(text, ends, out)
    ensures SegmentsAre(text, ends + [e], out + [Trim(Part(text, Begin(ends, |ends|), e))])
  {
    hide Trim, Part;
    forall k | 0 <= k <= |ends| ensures Begin(ends + [e], k) == Begin(ends, k) {
    }
  }

  lemma SentencesAre(text: string, ends: seq<nat>, segments: seq<string>, out: seq<string>, tail: string)
    requires SegmentsAre(text, ends, segments) && tail == Trim(Part(text, Begin(ends, |ends|), |text|))
    requires out == segments + if tail == "" then [] else [tail]
    ensures AreSentences(text, ends, out)
  {
  }

  /** The state before rune i is looked at. */
  ghost predicate CutSoFar(text: string, i: nat, start: nat, ends: seq<nat>, out: seq<string>,
                           isUpper: char -> bool, isAbbrev: string -> bool)
  {
    && start <= i <= |text| && start == Begin(ends, |ends|) && Flat(Inks(out)) == Ink(text, 0, start)
    && EndsAre(text, i, ends, isUpper, isAbbrev) && SegmentsAre(text, ends, out)
    && forall k :: 0 <= k < |out| ==> EndsSentence(out[k]) && NonSpace(out[k]) != ""
  }

  lemma CutStarts(text: string, isUpper: char -> bool, isAbbrev: string -> bool)
    ensures CutSoFar(text, 0, 0, [], [], isUpper, isAbbrev)
  {
    hide NonSpace, Trim, IsSpace, Flat, EndsSentence, EndsAre, SegmentsAre;
    NoSegments(text, isUpper, isAbbrev);
    InksNone();
    FlatNone();
  }

  lemma CutSkip(text: string, i: nat, start: nat, ends: seq<nat>, out: seq<string>,
                isUpper: char -> bool, isAbbrev: string -> bool)
    requires CutSoFar(text, i, start, ends, out, isUpper, isAbbrev)
    requires i < |text| && !IsBoundary(text, i, isUpper, isAbbrev)
    ensures CutSoFar(text, i + 1, start, ends, out, isUpper, isAbbrev)
  {
    hide NonSpace, Trim, Inks, IsSpace, Flat, EndsSentence, EndsAre, SegmentsAre, IsBoundary, Begin;
    EndsSkip(text, i, ends, isUpper, isAbbrev);
  }

  lemma CutNext(text: string, i: nat, start: nat, ends: seq<nat>, out: seq<string>,
                isUpper: char -> bool, isAbbrev: string -> bool)
    requires CutSoFar(text, i, start, ends, out, isUpper, isAbbrev)
    requires i < |text| && IsBoundary(text, i, isUpper, isAbbrev)
    ensures var seg := Trim(text[start..i + 1]);
            seg != "" && CutSoFar(text, i + 1, i + 1, ends + [i + 1], out + [seg], isUpper, isAbbrev)
  {
    hide *;
    CutParts(text, i, start, ends, out, isUpper, isAbbrev);
    var seg := Trim(text[start..i + 1]);
    BoundaryTerminates(text, i, isUpper, isAbbrev);
    SentenceCut(text, start, i);
    NotBlank(text[start..i + 1]);
    InksSnoc(out, seg);
    InkSplit(text, 0, start, i + 1);
    PartIs(text, start, i + 1);
    SegmentsNext(text, ends, out, i + 1);
    EndsNext(text, i, ends, isUpper, isAbbrev);
    BeginNext(ends, i + 1);
    CutFrom(text, i + 1, i + 1, ends + [i + 1], out + [seg], isUpper, isAbbrev);
  }

  lemma CutParts(text: string, i: nat, start: nat, ends: seq<nat>, out: seq<string>,
                 isUpper: char -> bool, isAbbrev: string -> bool)
    requires CutSoFar(text, i, start, ends, out, isUpper, isAbbrev)
    ensures start <= i <= |text| && start == Begin(ends, |ends|) && Flat(Inks(out)) == Ink(text, 0, start)
    ensures EndsAre(text, i, ends, isUpper, isAbbrev) && SegmentsAre(text, ends, out)
    ensures forall k :: 0 <= k < |out| ==> EndsSentence(out[k]) && NonSpace(out[k]) != ""
  {
  }

  lemma CutFrom(text: string, i: nat, start: nat, ends: seq<nat>, out: seq<string>,
                isUpper: char -> bool, isAbbrev: string -> bool)
    requires start <= i <= |text| && start == Begin(ends, |ends|) && Flat(Inks(out)) == Ink(text, 0, start)
    requires EndsAre(text, i, ends, isUpper, isAbbrev) && SegmentsAre(text, ends, out)
    requires forall k :: 0 <= k < |out| ==> EndsSentence(out[k]) && NonSpace(out[k]) != ""
    ensures CutSoFar(text, i, start, ends, out, isUpper, isAbbrev)
  {
  }

  lemma PartIs(text: string, a: nat, b: nat)
    requires a <= b <= |text|
    ensures Part(text, a, b) == text[a..b]
  {
  }

  lemma BeginNext(ends: seq<nat>, e: nat)
    ensures Begin(ends + [e], |ends| + 1) == e
  {
  }

  lemma BoundaryTerminates(text: string, i: nat, isUpper: char -> bool, isAbbrev: string -> bool)
    requires i < |text| && IsBoundary(text, i, isUpper, isAbbrev)
    ensures IsTerminator(text[i])
  {
  }

  lemma CutDone(text: string, start: nat, ends: seq<nat>, out: seq<string>, isUpper: char -> bool, isAbbrev: string -> bool)
    requires CutSoFar(text, |text|, start, ends, out, isUpper, isAbbrev)
    ensures var tail := Trim(text[start..]);
            var all := out + if tail == "" then [] else [tail];
            && EndsAre(text, |text|, ends, isUpper, isAbbrev) && AreSentences(text, ends, all)
            && Flat(Inks(all)) == NonSpace(text)
            && (forall k :: 0 <= k < |all| ==> NonSpace(all[k]) != "")
            && (forall k :: 0 <= k < |all| - 1 ==> EndsSentence(all[k]))
  {
    hide NonSpace, Trim, Inks, IsSpace, Flat, EndsSentence, EndsAre, SegmentsAre, AreSentences, Begin;
    var tail := Trim(text[start..]);
    TrimKeeps(text[start..]);
    InkOfSlice(text, start, |text|);
    InkSplit(text, 0, start, |text|);
    assert text[start..|text|] == text[start..];
    InksSnoc(out, tail);
    assert out + [] == out;
    SentencesAre(text, ends, out, out + if tail == "" then [] else [tail], tail);
    NonSpaceIs(text);
  }

  /** splitSentences: cut exactly behind the boundaries.  No segment is blank, all but the
      last end a sentence, and no content is lost. */
  method SplitSentences(text: string, isUpper: char -> bool, isAbbrev: string -> bool)
    returns (out: seq<string>, ghost ends: seq<nat>)
    ensures EndsAre(text, |text|, ends, isUpper, isAbbrev) && AreSentences(text, ends, out)
    ensures Flat(Inks(out)) == NonSpace(text)
    ensures forall k :: 0 <= k < |out| ==> NonSpace(out[k]) != ""
    ensures forall k :: 0 <= k < |out| - 1 ==> EndsSentence(out[k])
  {
    out, ends := [], [];
    var start: nat := 0;
    hide *;
    CutStarts(text, isUpper, isAbbrev);
    for i := 0 to |text|
      invariant start <= i && CutSoFar(text, i, start, ends, out, isUpper, isAbbrev)
    {
      if !IsBoundary(text, i, isUpper, isAbbrev) {
        CutSkip(text, i, start, ends, out, isUpper, isAbbrev);
        continue;
      }
      CutNext(text, i, start, ends, out, isUpper, isAbbrev);
      var seg := Trim(text[start..i + 1]);
      if seg != "" {
        out := out + [seg];
      }
      ends := ends + [i + 1];
      start := i + 1;
    }
    CutDone(text, start, ends, out, isUpper, isAbbrev);
    var tail := Trim(text[start..]);
    if tail != "" {
      out := out + [tail];
    }
    assert out + [] == out;
  }

  lemma NoSegments(text: string, isUpper: char -> bool, isAbbrev: string -> bool)
    ensures EndsAre(text, 0, [], isUpper, isAbbrev) && SegmentsAre(text, [], [])
  {
  }

  lemma NotBlank(s: string)
    requires Trim(s) != ""
    ensures NonSpace(Trim(s)) != ""
  {
    TrimKeeps(s);
  }

  lemma NonSpaceIs(text: string)
    ensures NonSpace(text) == Ink(text, 0, |text|)
  {
  }

  // ---------- choosing a strategy ----------

  const DEFAULT_TARGET := 120
  const DEFAULT_OVERLAP := 24

  /** chunkBounds: whatever is configured, the overlap ends up below the target. */
  function ChunkBounds(targetWords: int, overlapWords: int): (r: (int, int))
    ensures 0 <= r.1 < r.0
    ensures targetWords > 0 ==> r.0 == targetWords && (0 <= overlapWords < targetWords ==> r.1 == overlapWords)
  {
    var (target, overlap) :=
      if targetWords <= 0 then (DEFAULT_TARGET, DEFAULT_OVERLAP) else (targetWords, overlapWords);
    if overlap < 0 || overlap >= target then (target, target / 4) else (target, overlap)
  }

  ghost function MostWords(frags: seq<string>): (m: nat)
    ensures forall k :: 0 <= k < |frags| ==> WordCount(frags[k]) <= m
  {
    if |frags| == 0 then 0
    else
      var m, w := MostWords(frags[..|frags| - 1]), WordCount(frags[|frags| - 1]);
      if m < w then w else m
  }

  datatype Strategy = Recursive | Word | Sentence

  /** How the pieces of a text come about: windows of target words, or runs of whole
      fragments, which are the sentences, or cut at the separators only where it must be. */
  ghost predicate CutBy(strategy: Strategy, text: string, target: int, overlap: int, out: seq<string>, frags: seq<string>,
                        cuts: seq<nat>, ends: seq<nat>, isUpper: char -> bool, isAbbrev: string -> bool)
  {
    match strategy
    case Word => Within(out, target) && forall k :: 0 <= k < |out| - 1 ==> WordCount(out[k]) == target
    case Sentence =>
      && EndsAre(text, |text|, ends, isUpper, isAbbrev) && AreSentences(text, ends, frags)
      && WholeRuns(frags, overlap, cuts, out)
    case Recursive => GoodFragments(frags, text, SEPARATORS, target) && WholeRuns(frags, overlap, cuts, out)
  }

  lemma CutByWords(text: string, target: int, overlap: int, out: seq<string>, isUpper: char -> bool, isAbbrev: string -> bool)
    requires Within(out, target) && forall k :: 0 <= k < |out| - 1 ==> WordCount(out[k]) == target
    ensures CutBy(Word, text, target, overlap, out, [], [], [], isUpper, isAbbrev)
  {
    hide Fields;
  }

  lemma CutByRuns(strategy: Strategy, text: string, target: int, overlap: int, out: seq<string>, frags: seq<string>,
                  cuts: seq<nat>, ends: seq<nat>, isUpper: char -> bool, isAbbrev: string -> bool)
    requires WholeRuns(frags, overlap, cuts, out) && strategy != Word
    requires strategy == Sentence ==> EndsAre(text, |text|, ends, isUpper, isAbbrev) && AreSentences(text, ends, frags)
    requires strategy == Recursive ==> GoodFragments(frags, text, SEPARATORS, target)
    ensures CutBy(strategy, text, target, overlap, out, frags, cuts, ends, isUpper, isAbbrev)
  {
    hide WholeRuns, EndsAre, AreSentences, GoodFragments;
  }

  lemma NoRuns(overlap: int)
    ensures WholeRuns([], overlap, [0], [])
  {
  }

  /** The three built-in strategies for plain text. */
  method Split(strategy: Strategy, targetWords: int, overlapWords: int, text: string,
               isUpper: char -> bool, isAbbrev: string -> bool)
    returns (out: seq<string>, ghost frags: seq<string>, ghost cuts: seq<nat>, ghost ends: seq<nat>)
    ensures Covers(out, ChunkBounds(targetWords, overlapWords).1, NonSpace(text))
    ensures var (target, overlap) := ChunkBounds(targetWords, overlapWords);
            CutBy(strategy, text, target, overlap, out, frags, cuts, ends, isUpper, isAbbrev)
  {
    hide *;
    var (target, overlap) := ChunkBounds(targetWords, overlapWords);
    frags, cuts, ends := [], [], [];
    match strategy {
      case Word =>
        out := SplitWords(text, target, overlap);
        CutByWords(text, target, overlap, out, isUpper, isAbbrev);
      case Sentence =>
        var sents;
        sents, ends := SplitSentences(text, isUpper, isAbbrev);
        frags := sents;
        if |sents| == 0 {
          InksNone();
          FlatNone();
          CoversNone(overlap);
          assert sents == [];
          NoRuns(overlap);
          out, cuts := [], [0];
        } else {
          out, cuts := PackFragments(sents, target, overlap, MostWords(sents));
        }
        CutByRuns(strategy, text, target, overlap, out, frags, cuts, ends, isUpper, isAbbrev);
      case Recursive =>
        SeparatorsAreNotEmpty();
        var pieces := SplitRecursive(text, SEPARATORS, target);
        frags := pieces;
        out, cuts := PackFragments(pieces, target, overlap, MostWords(pieces));
        CutByRuns(strategy, text, target, overlap, out, frags, cuts, ends, isUpper, isAbbrev);
    }
  }

  lemma SeparatorsAreNotEmpty()
    ensures forall k :: 0 <= k < |SEPARATORS| ==> SEPARATORS[k] != ""
  {
  }

  // ---------- where the pieces lie ----------

  /** Where the content of piece k starts within the content of the text. */
  ghost function Offset(pieces: seq<string>, overlap: int, k: nat): int
    requires k < |pieces|
  {
    |Stitch(pieces[..k + 1], overlap)| - |NonSpace(pieces[k])|
  }

  lemma StitchSnoc(pieces: seq<string>, overlap: int, k: nat)
    requires k < |pieces|
    ensures Stitch(pieces[..k + 1], overlap)
         == Stitch(pieces[..k], overlap) + Drop(NonSpace(pieces[k]), |Seam(pieces[..k], overlap)|)
    ensures Chained(pieces[..k + 1], overlap)
       <==> Chained(pieces[..k], overlap) && NonSpace(pieces[k]) != "" && Seam(pieces[..k], overlap) <= NonSpace(pieces[k])
  {
    assert pieces[..k + 1][..k] == pieces[..k];
    hide NonSpace, Seam;
  }

  lemma {:induction false} ChainedPrefix(pieces: seq<string>, overlap: int, k: nat)
    requires Chained(pieces, overlap) && k <= |pieces|
    ensures Chained(pieces[..k], overlap)
    decreases |pieces| - k
  {
    assert pieces[..|pieces|] == pieces;
    if k < |pieces| {
      ChainedPrefix(pieces, overlap, k + 1);
      StitchSnoc(pieces, overlap, k);
    }
  }

  /** The glued prefix ends with the content of its last piece. */
  lemma {:induction false} StitchEnds(pieces: seq<string>, overlap: int, k: nat)
    requires k < |pieces| && Chained(pieces, overlap)
    ensures Offset(pieces, overlap, k) >= 0
    ensures Stitch(pieces[..k + 1], overlap)[Offset(pieces, overlap, k)..] == NonSpace(pieces[k])
    ensures k > 0 ==> Offset(pieces, overlap, k) >= Offset(pieces, overlap, k - 1)
  {
    hide *;
    ChainedPrefix(pieces, overlap, k + 1);
    StitchSnoc(pieces, overlap, k);
    OffsetIs(pieces, overlap, k);
    var piece := NonSpace(pieces[k]);
    if k == 0 {
      SeamNone(pieces, overlap);
      DropPrefix("", piece);
      EndsWith("", "", piece, piece);
    } else {
      StitchEnds(pieces, overlap, k - 1);
      SeamIs(pieces, overlap, k);
      var front := LastWordsInk(pieces[k - 1], overlap);
      OffsetIs(pieces, overlap, k - 1);
      var before, seam := Stitch(pieces[..k], overlap), Seam(pieces[..k], overlap);
      DropPrefix(seam, piece);
      EndsWithPart(before, NonSpace(pieces[k - 1]), front, seam);
      EndsWith(before, seam, piece, Drop(piece, |seam|));
    }
  }

  lemma SeamNone(pieces: seq<string>, overlap: int)
    ensures Seam(pieces[..0], overlap) == "" && Stitch(pieces[..0], overlap) == ""
  {
  }

  lemma SeamIs(pieces: seq<string>, overlap: int, k: nat)
    requires 0 < k <= |pieces|
    ensures Seam(pieces[..k], overlap) == NonSpace(LastWords(pieces[k - 1], overlap))
  {
    hide NonSpace, LastWords, Fields, Join;
    assert pieces[..k][k - 1] == pieces[k - 1];
  }

  lemma OffsetIs(pieces: seq<string>, overlap: int, k: nat)
    requires k < |pieces|
    ensures Offset(pieces, overlap, k) == |Stitch(pieces[..k + 1], overlap)| - |NonSpace(pieces[k])|
  {
  }

  lemma DropPrefix(a: string, s: string)
    requires a <= s
    ensures Drop(s, |a|) == s[|a|..] && a + Drop(s, |a|) == s
  {
  }

  lemma EndsWithPart(s: string, t: string, front: string, seam: string)
    requires |t| <= |s| && s[|s| - |t|..] == t && t == front + seam
    ensures s[|s| - |seam|..] == seam
  {
    assert forall i :: 0 <= i < |t| ==> t[i] == s[|s| - |t| + i];
    assert forall i :: 0 <= i < |seam| ==> seam[i] == t[|front| + i];
  }

  lemma EndsWith(s: string, seam: string, piece: string, more: string)
    requires |seam| <= |s| && s[|s| - |seam|..] == seam && piece == seam + more
    ensures |s + more| >= |piece| && (s + more)[|s + more| - |piece|..] == piece
  {
    var k := |s| - |seam|;
    assert s == s[..k] + seam;
    assert s + more == s[..k] + piece;
  }

  lemma {:induction false} StitchGrows(pieces: seq<string>, overlap: int, k: nat, n: nat)
    requires k <= n <= |pieces|
    ensures Stitch(pieces[..k], overlap) <= Stitch(pieces[..n], overlap)
    decreases n
  {
    hide *;
    if k < n {
      StitchGrows(pieces, overlap, k, n - 1);
      StitchSnoc(pieces, overlap, n - 1);
    }
  }

  /** The content of piece k is the stretch of the text's content at its offset, and
      offsets never decrease. */
  lemma PiecesLieInOrder(pieces: seq<string>, overlap: int, content: string, k: nat)
    requires Covers(pieces, overlap, content) && k < |pieces|
    ensures NonSpace(pieces[k]) != ""
    ensures 0 <= Offset(pieces, overlap, k) <= |content| - |NonSpace(pieces[k])|
    ensures content[Offset(pieces, overlap, k)..Offset(pieces, overlap, k) + |NonSpace(pieces[k])|] == NonSpace(pieces[k])
    ensures k > 0 ==> Offset(pieces, overlap, k - 1) <= Offset(pieces, overlap, k)
  {
    hide *;
    assert pieces[..|pieces|] == pieces;
    CoversIs(pieces, overlap, content);
    StitchEnds(pieces, overlap, k);
    ChainedPrefix(pieces, overlap, k + 1);
    StitchSnoc(pieces, overlap, k);
    StitchGrows(pieces, overlap, k + 1, |pieces|);
    OffsetIs(pieces, overlap, k);
    var glued, o := Stitch(pieces[..k + 1], overlap), Offset(pieces, overlap, k);
    SliceOfPrefix(content, glued, o);
  }

  lemma CoversIs(pieces: seq<string>, overlap: int, content: string)
    requires Covers(pieces, overlap, content)
    ensures Chained(pieces, overlap) && Stitch(pieces, overlap) == content
  {
  }

  lemma SliceOfPrefix(s: string, p: string, o: nat)
    requires p <= s && o <= |p|
    ensures s[o..|p|] == p[o..]
  {
  }
}
