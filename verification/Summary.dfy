/**
 The extractive summarizer: score sentences by word frequency, pick the best `n` with one
 in-place exchange sort, and restore their order with another. Trimming and splitting into
 words are left uninterpreted: `words` gives a sentence's normalized words.
 */
module Summary {

  datatype Scored = Scored(text: string, score: int, idx: nat)

  // ----- word frequencies

  function Occurrences(ws: seq<string>, w: string): nat {
    if ws == [] then 0
    else Occurrences(ws[..|ws| - 1], w) + if ws[|ws| - 1] == w then 1 else 0
  }

  function AllWords(sentences: seq<string>, words: string -> seq<string>): seq<string> {
    if sentences == [] then []
    else AllWords(sentences[..|sentences| - 1], words) + words(sentences[|sentences| - 1])
  }

  /** Words of up to three letters carry no weight. */
  function Weight(all: seq<string>, w: string): nat {
    if |w| > 3 then Occurrences(all, w) else 0
  }

  function ScoreOf(all: seq<string>, ws: seq<string>): nat {
    if ws == [] then 0 else ScoreOf(all, ws[..|ws| - 1]) + Weight(all, ws[|ws| - 1])
  }

  /** In plain terms: a word of four or more letters weighs as often as it occurs, a shorter one
      nothing; and scores add up word by word. */
  lemma {:induction false} ScoreInWords(all: seq<string>, ws: seq<string>, w: string)
    ensures Weight(all, w) == if |w| >= 4 then multiset(all)[w] else 0
    ensures ScoreOf(all, []) == 0 && ScoreOf(all, ws + [w]) == ScoreOf(all, ws) + Weight(all, w)
  {
    OccurrencesIsCount(all, w);
    assert (ws + [w])[..|ws|] == ws;
  }

  lemma {:induction false} OccurrencesIsCount(ws: seq<string>, w: string)
    ensures Occurrences(ws, w) == multiset(ws)[w]
  {
    if ws != [] {
      var n := |ws| - 1;
      assert ws == ws[..n] + [ws[n]];
      OccurrencesIsCount(ws[..n], w);
    }
  }

  /** The words of a text are those of its sentences, in order. */
  lemma AllWordsInOrder(sentences: seq<string>, s: string, words: string -> seq<string>)
    ensures AllWords([], words) == [] && AllWords(sentences + [s], words) == AllWords(sentences, words) + words(s)
  {
    assert (sentences + [s])[..|sentences|] == sentences;
  }

  ghost predicate Counts(freq: map<string, nat>, all: seq<string>) {
    forall w :: (if w in freq then freq[w] else 0) == Weight(all, w)
  }

  lemma CountsOneMore(freq: map<string, nat>, all: seq<string>, w: string)
    requires Counts(freq, all)
    ensures Counts(if |w| > 3 then freq[w := (if w in freq then freq[w] else 0) + 1] else freq, all + [w])
  {
    assert (all + [w])[..|all|] == all;
  }

  method CountWords(sentences: seq<string>, words: string -> seq<string>) returns (freq: map<string, nat>)
    ensures Counts(freq, AllWords(sentences, words))
  {
    freq := map[];
    ghost var all: seq<string> := [];
    for i := 0 to |sentences|
      invariant all == AllWords(sentences[..i], words)
      invariant Counts(freq, all)
    {
      var ws := words(sentences[i]);
      ghost var before := all;
      for k := 0 to |ws|
        invariant all == before + ws[..k]
        invariant Counts(freq, all)
      {
        CountsOneMore(freq, all, ws[k]);
        if |ws[k]| > 3 {
          freq := freq[ws[k] := (if ws[k] in freq then freq[ws[k]] else 0) + 1];
        }
        all := all + [ws[k]];
      }
      assert ws[..|ws|] == ws;
      assert sentences[..i + 1][..i] == sentences[..i];
    }
    assert sentences[..|sentences|] == sentences;
  }

  method ScoreSentence(freq: map<string, nat>, ws: seq<string>, ghost all: seq<string>) returns (score: nat)
    requires Counts(freq, all)
    ensures score == ScoreOf(all, ws)
  {
    score := 0;
    for k := 0 to |ws|
      invariant score == ScoreOf(all, ws[..k])
    {
      assert ws[..k + 1][..k] == ws[..k];
      score := score + if ws[k] in freq then freq[ws[k]] else 0;
    }
    assert ws[..|ws|] == ws;
  }

  // ----- the two sorts

  function Swapped(s: seq<Scored>, i: nat, j: nat): (t: seq<Scored>)
    requires i < |s| && j < |s|
    ensures |t| == |s|
  {
    s[i := s[j]][j := s[i]]
  }

  lemma SwappedIsPermutation(s: seq<Scored>, i: nat, j: nat)
    requires i < j < |s|
    ensures multiset(Swapped(s, i, j)) == multiset(s)
  {
    var t := s[i := s[j]];
    assert multiset(t) == multiset(s) - multiset{s[i]} + multiset{s[j]};
    assert t[j] == s[j];
    assert multiset(t[j := s[i]]) == multiset(t) - multiset{s[j]} + multiset{s[i]};
  }

  lemma PrefixOfSwapped(s: seq<Scored>, i: nat, j: nat, n: nat)
    requires i < j < n <= |s|
    ensures multiset(Swapped(s, i, j)[..n]) == multiset(s[..n])
    ensures Swapped(s, i, j)[n..] == s[n..]
  {
    assert Swapped(s, i, j)[..n] == Swapped(s[..n], i, j);
    SwappedIsPermutation(s[..n], i, j);
  }

  /** Exchange two entries among the first `n`. */
  method Exchange(a: array<Scored>, i: nat, j: nat, ghost n: nat)
    requires i < j < n <= a.Length
    modifies a
    ensures a[i] == old(a[j]) && a[j] == old(a[i])
    ensures forall k :: 0 <= k < a.Length && k != i && k != j ==> a[k] == old(a[k])
    ensures multiset(a[..n]) == old(multiset(a[..n])) && a[n..] == old(a[n..])
    ensures multiset(a[..]) == old(multiset(a[..]))
  {
    ghost var s := a[..];
    PrefixOfSwapped(s, i, j, n);
    SwappedIsPermutation(s, i, j);
    a[i], a[j] := a[j], a[i];
    assert a[..] == Swapped(s, i, j);
    assert a[..n] == a[..][..n] && a[n..] == a[..][n..];
  }

  /** `a[i]` is a best one from `i` on, for every `i` below `k`. */
  ghost predicate BestFirst(s: seq<Scored>, k: nat) {
    forall i, j :: 0 <= i < k && i < j < |s| ==> s[i].score >= s[j].score
  }

  method SortByScore(a: array<Scored>)
    modifies a
    ensures BestFirst(a[..], a.Length)
    ensures multiset(a[..]) == old(multiset(a[..]))
  {
    var i := 0;
    while i < a.Length - 1
      invariant 0 <= i <= a.Length
      invariant BestFirst(a[..], i)
      invariant multiset(a[..]) == old(multiset(a[..]))
    {
      BringBest(a, i);
      i := i + 1;
    }
  }

  /** The inner loop: compare place `i` with every later one and exchange when that is better. */
  method BringBest(a: array<Scored>, i: nat)
    requires i < a.Length && BestFirst(a[..], i)
    modifies a
    ensures BestFirst(a[..], i + 1)
    ensures multiset(a[..]) == old(multiset(a[..]))
  {
    var j := i + 1;
    while j < a.Length
      invariant i < j <= a.Length
      invariant BestFirst(a[..], i)
      invariant forall k :: i < k < j ==> a[i].score >= a[k].score
      invariant multiset(a[..]) == old(multiset(a[..]))
    {
      if a[j].score > a[i].score {
        Exchange(a, i, j, a.Length);
      }
      j := j + 1;
    }
  }

  ghost predicate InOrder(s: seq<Scored>, k: nat) {
    forall i, j :: 0 <= i < k && i < j < |s| ==> s[i].idx <= s[j].idx
  }

  /** The same entries in the first `n` places, and the rest untouched. */
  ghost predicate PrefixShuffled(s: seq<Scored>, t: seq<Scored>, n: nat) {
    n <= |s| == |t| && multiset(s[..n]) == multiset(t[..n]) && s[n..] == t[n..]
  }

  /** Sort the first `n` places by original position; the rest stays. */
  method SortPrefixByIndex(a: array<Scored>, n: nat)
    requires n <= a.Length
    modifies a
    ensures InOrder(a[..n], n) && PrefixShuffled(old(a[..]), a[..], n)
  {
    var i := 0;
    while i + 1 < n
      invariant 0 <= i <= n
      invariant InOrder(a[..n], i) && PrefixShuffled(old(a[..]), a[..], n)
    {
      BringFirst(a, i, n);
      i := i + 1;
    }
  }

  method BringFirst(a: array<Scored>, i: nat, n: nat)
    requires i < n <= a.Length && InOrder(a[..n], i)
    modifies a
    ensures InOrder(a[..n], i + 1) && PrefixShuffled(old(a[..]), a[..], n)
  {
    var j := i + 1;
    while j < n
      invariant i < j <= n
      invariant InOrder(a[..n], i) && PrefixShuffled(old(a[..]), a[..], n)
      invariant forall k :: i < k < j ==> a[i].idx <= a[k].idx
    {
      if a[j].idx < a[i].idx {
        ExchangePrefix(a, i, j, n);
      }
      j := j + 1;
    }
  }

  /** An exchange that puts the earlier of two entries first keeps what is in order before. */
  method ExchangePrefix(a: array<Scored>, i: nat, j: nat, n: nat)
    requires i < j < n <= a.Length && InOrder(a[..n], i) && a[j].idx < a[i].idx
    modifies a
    ensures a[i] == old(a[j]) && a[j] == old(a[i])
    ensures forall k :: 0 <= k < a.Length && k != i && k != j ==> a[k] == old(a[k])
    ensures InOrder(a[..n], i) && PrefixShuffled(old(a[..]), a[..], n)
  {
    ghost var s := a[..];
    assert s[..n] == a[..n];
    Exchange(a, i, j, n);
    assert a[..] == Swapped(s, i, j);
    PrefixOfSwapped(s, i, j, n);
    SwappedKeepsOrder(s, i, j, n);
    assert a[..n] == Swapped(s, i, j)[..n];
  }

  lemma SwappedKeepsOrder(s: seq<Scored>, i: nat, j: nat, n: nat)
    requires i < j < n <= |s| && InOrder(s[..n], i)
    ensures InOrder(Swapped(s, i, j)[..n], i)
  {
    var before, after := s[..n], Swapped(s, i, j)[..n];
    forall k, m | 0 <= k < i && k < m < n ensures after[k].idx <= after[m].idx {
      assert after[k] == before[k];
      assert after[m] == before[if m == i then j else if m == j then i else m];
    }
  }

  // ----- the summary

  /** The scored sentences in their original order. */
  ghost predicate Tabulates(s: seq<Scored>, sentences: seq<string>, words: string -> seq<string>) {
    && |s| == |sentences|
    && forall i :: 0 <= i < |s| ==>
         s[i] == Scored(sentences[i], ScoreOf(AllWords(sentences, words), words(sentences[i])), i)
  }

  lemma {:induction false} AtMostOnce(s: seq<Scored>, x: Scored)
    requires forall i, j :: 0 <= i < j < |s| ==> s[i].idx != s[j].idx
    ensures multiset(s)[x] <= 1
  {
    if s != [] {
      var n := |s| - 1;
      assert s == s[..n] + [s[n]];
      AtMostOnce(s[..n], x);
      if x == s[n] {
        assert forall i :: 0 <= i < n ==> s[..n][i] != x;
        assert x !in s[..n];
      }
    }
  }

  lemma TwiceIsTwo(t: seq<Scored>, i: nat, j: nat)
    requires i < j < |t|
    ensures t[i] == t[j] ==> multiset(t)[t[i]] >= 2
  {
    assert t == t[..j] + [t[j]] + t[j + 1..];
    assert t[..j][i] == t[i];
    assert t[i] in t[..j];
  }

  /** A rearrangement of entries with distinct positions still has distinct positions. */
  lemma DistinctAfterSorting(s: seq<Scored>, t: seq<Scored>, i: nat, j: nat)
    requires multiset(s) == multiset(t) && i < j < |t|
    requires forall i, j :: 0 <= i < j < |s| ==> s[i].idx != s[j].idx
    ensures t[i].idx != t[j].idx
  {
    assert t[i] in multiset(s) && t[j] in multiset(s);
    var k :| 0 <= k < |s| && s[k] == t[i];
    var m :| 0 <= m < |s| && s[m] == t[j];
    TwiceIsTwo(t, i, j);
    AtMostOnce(s, t[i]);
  }

  /** The promise: `n` of the original sentences, in strictly increasing original order, such
      that no sentence left out outscores one taken. */
  ghost predicate BestInOrder(chosen: seq<Scored>, n: nat, table: seq<Scored>) {
    && |chosen| == n
    && (forall i :: 0 <= i < n ==> chosen[i].idx < |table| && chosen[i] == table[chosen[i].idx])
    && (forall i, j :: 0 <= i < j < n ==> chosen[i].idx < chosen[j].idx)
    && (forall u, i :: 0 <= u < |table| && 0 <= i < n && table[u] !in chosen ==> table[u].score <= chosen[i].score)
  }

  /** The selection and the rest of the sorted entries are the whole table again. */
  lemma SelectionAndRest(table: seq<Scored>, byScore: seq<Scored>, chosen: seq<Scored>, n: nat)
    requires n <= |byScore| && multiset(byScore) == multiset(table) && multiset(chosen) == multiset(byScore[..n])
    ensures |chosen| == n && multiset(chosen + byScore[n..]) == multiset(table)
  {
    assert |chosen| == |multiset(chosen)| == |multiset(byScore[..n])| == n;
    assert byScore == byScore[..n] + byScore[n..];
  }

  lemma FromTable(table: seq<Scored>, t: seq<Scored>, i: nat)
    requires (forall k :: 0 <= k < |table| ==> table[k].idx == k) && multiset(t) == multiset(table) && i < |t|
    ensures t[i].idx < |table| && t[i] == table[t[i].idx]
  {
    assert t[i] in multiset(table);
  }

  /** What is left out is in the rest of the sorted entries, so it does not outscore. */
  lemma LeftOutIsNoBetter(byScore: seq<Scored>, chosen: seq<Scored>, n: nat, x: Scored, i: nat)
    requires n <= |byScore| && BestFirst(byScore, |byScore|) && multiset(chosen) == multiset(byScore[..n])
    requires x in multiset(chosen + byScore[n..]) && x !in chosen && i < |chosen|
    ensures x.score <= chosen[i].score
  {
    assert x in byScore[n..];
    var k :| 0 <= k < |byScore[n..]| && byScore[n..][k] == x;
    assert chosen[i] in multiset(byScore[..n]);
    var m :| 0 <= m < n && byScore[..n][m] == chosen[i];
    assert byScore[m].score >= byScore[n + k].score;
  }

  lemma {:induction false} SortedTopIsBest(table: seq<Scored>, byScore: seq<Scored>, chosen: seq<Scored>, n: nat)
    requires forall i :: 0 <= i < |table| ==> table[i].idx == i
    requires n <= |byScore| && multiset(byScore) == multiset(table) && BestFirst(byScore, |byScore|)
    requires multiset(chosen) == multiset(byScore[..n]) && InOrder(chosen, |chosen|)
    ensures BestInOrder(chosen, n, table)
  {
    var whole := chosen + byScore[n..];
    SelectionAndRest(table, byScore, chosen, n);
    forall i | 0 <= i < n ensures chosen[i].idx < |table| && chosen[i] == table[chosen[i].idx] {
      FromTable(table, whole, i);
    }
    forall i, j | 0 <= i < j < n ensures chosen[i].idx < chosen[j].idx {
      DistinctAfterSorting(table, whole, i, j);
    }
    forall u, i | 0 <= u < |table| && 0 <= i < n && table[u] !in chosen ensures table[u].score <= chosen[i].score {
      assert table[u] in multiset(whole);
      LeftOutIsNoBetter(byScore, chosen, n, table[u], i);
    }
  }

  /** The sentences a summary of `n` consists of, when there are more than `n`. */
  method Summarize(sentences: seq<string>, n: nat, words: string -> seq<string>) returns (parts: seq<string>, ghost chosen: seq<Scored>)
    ensures |sentences| <= n ==> parts == sentences
    ensures |sentences| > n ==>
              && |parts| == n == |chosen| && (forall i :: 0 <= i < n ==> parts[i] == chosen[i].text)
              && exists table :: Tabulates(table, sentences, words) && BestInOrder(chosen, n, table)
  {
    chosen := [];
    if |sentences| <= n { return sentences, []; }
    var freq := CountWords(sentences, words);
    ghost var all := AllWords(sentences, words);
    var scores := new Scored[|sentences|](_ => Scored("", 0, 0));
    for i := 0 to |sentences|
      invariant forall k :: 0 <= k < i ==> scores[k] == Scored(sentences[k], ScoreOf(all, words(sentences[k])), k)
    {
      var score := ScoreSentence(freq, words(sentences[i]), all);
      scores[i] := Scored(sentences[i], score, i);
    }
    ghost var table := scores[..];
    assert Tabulates(table, sentences, words);
    parts, chosen := PickTop(scores, n);
  }

  /** Sort, cut, sort back: the in-place part. */
  method PickTop(scores: array<Scored>, n: nat) returns (parts: seq<string>, ghost chosen: seq<Scored>)
    requires n <= scores.Length && forall i :: 0 <= i < scores.Length ==> scores[i].idx == i
    modifies scores
    ensures |parts| == n && BestInOrder(chosen, n, old(scores[..]))
    ensures forall i :: 0 <= i < n ==> parts[i] == chosen[i].text
  {
    ghost var table := scores[..];
    SortByScore(scores);
    ghost var byScore := scores[..];
    assert scores[..n] == byScore[..n];
    SortPrefixByIndex(scores, n);
    assert scores[..n] == scores[..][..n];
    chosen := scores[..n];
    SortedTopIsBest(table, byScore, chosen, n);
    parts := [];
    for i := 0 to n
      invariant |parts| == i && forall k :: 0 <= k < i ==> parts[k] == chosen[k].text
      invariant scores[..n] == chosen
    {
      parts := parts + [scores[i].text];
    }
  }

  // ----- from text to text

  predicate Ends(c: char) { c == '.' || c == '!' || c == '?' }

  /** The text cut behind every character that ends a sentence, `buf` being what came before. */
  function Cut(buf: string, rest: string): seq<string>
    decreases rest
  {
    if rest == [] then [buf]
    else if Ends(rest[0]) then [buf + [rest[0]]] + Cut([], rest[1..])
    else Cut(buf + [rest[0]], rest[1..])
  }

  function Concat(pieces: seq<string>): string {
    if pieces == [] then [] else pieces[0] + Concat(pieces[1..])
  }

  /** No piece ends a sentence before its last character. */
  predicate Whole(piece: string) {
    forall i :: 0 <= i < |piece| - 1 ==> piece[i] !in {'.', '!', '?'}
  }

  /** These pieces are the text, each whole and all but the last ended. */
  predicate Exact(pieces: seq<string>, text: string) {
    && pieces != [] && Concat(pieces) == text
    && (forall k :: 0 <= k < |pieces| ==> Whole(pieces[k]))
    && (forall k :: 0 <= k < |pieces| - 1 ==> pieces[k] != [] && pieces[k][|pieces[k]| - 1] in {'.', '!', '?'})
  }

  lemma LastIsExact(buf: string)
    requires forall i :: 0 <= i < |buf| ==> !Ends(buf[i])
    ensures Exact([buf], buf)
  {
    assert [buf][1..] == [];
    assert Concat([buf]) == buf + [];
  }

  lemma FirstIsExact(buf: string, c: char, pieces: seq<string>, rest: string)
    requires (forall i :: 0 <= i < |buf| ==> !Ends(buf[i])) && Ends(c) && Exact(pieces, rest)
    ensures Exact([buf + [c]] + pieces, buf + ([c] + rest))
  {
    var all := [buf + [c]] + pieces;
    assert all[1..] == pieces;
    assert buf + [c] + rest == buf + ([c] + rest);
    hide Concat;
  }

  /** Cutting loses nothing, cuts nowhere but behind the ends of sentences, and behind all of
      them. */
  lemma {:induction false} CutIsExact(buf: string, rest: string)
    requires forall i :: 0 <= i < |buf| ==> !Ends(buf[i])
    ensures Exact(Cut(buf, rest), buf + rest)
    decreases rest
  {
    CutTurn(buf, rest);
    hide *;
    if rest == [] {
      LastIsExact(buf);
      assert buf + [] == buf;
    } else {
      var c, tail := rest[0], rest[1..];
      assert rest == [c] + tail;
      if Ends(c) {
        CutIsExact([], tail);
        assert [] + tail == tail;
        FirstIsExact(buf, c, Cut([], tail), tail);
      } else {
        CutIsExact(buf + [c], tail);
        assert buf + rest == buf + [c] + tail;
      }
    }
  }

  lemma CutTurn(buf: string, rest: string)
    ensures Cut(buf, rest) ==
            if rest == [] then [buf]
            else if Ends(rest[0]) then [buf + [rest[0]]] + Cut([], rest[1..])
            else Cut(buf + [rest[0]], rest[1..])
  {
  }

  /** The pieces trimmed, without those of which nothing is left. */
  function Sentences(pieces: seq<string>, trim: string -> string): seq<string> {
    if pieces == [] then []
    else (if trim(pieces[0]) != "" then [trim(pieces[0])] else []) + Sentences(pieces[1..], trim)
  }

  method SplitSentences(text: string, trim: string -> string) returns (out: seq<string>)
    ensures out == Sentences(Cut([], text), trim)
  {
    hide Cut, Sentences;
    out := [];
    var buf := [];
    for i := 0 to |text|
      invariant out + Sentences(Cut(buf, text[i..]), trim) == Sentences(Cut([], text), trim)
    {
      var c := text[i];
      assert text[i..] == [c] + text[i + 1..];
      SplitTurn(buf, c, text[i + 1..], trim);
      buf := buf + [c];
      if Ends(c) {
        var s := trim(buf);
        if s != "" {
          ghost var rest := Sentences(Cut([], text[i + 1..]), trim);
          assert out + ([s] + rest) == out + [s] + rest;
          out := out + [s];
        }
        buf := [];
      }
    }
    SplitEnd(buf, trim);
    var rem := trim(buf);
    if rem != "" {
      out := out + [rem];
    }
  }

  lemma SplitEnd(buf: string, trim: string -> string)
    ensures Sentences(Cut(buf, []), trim) == if trim(buf) != "" then [trim(buf)] else []
  {
    assert [buf][1..] == [];
  }

  lemma SplitTurn(buf: string, c: char, rest: string, trim: string -> string)
    ensures Sentences(Cut(buf, [c] + rest), trim) ==
            if Ends(c) then (if trim(buf + [c]) != "" then [trim(buf + [c])] else []) + Sentences(Cut([], rest), trim)
            else Sentences(Cut(buf + [c], rest), trim)
  {
    assert ([c] + rest)[1..] == rest;
    if Ends(c) {
      var pieces := [buf + [c]] + Cut([], rest);
      assert pieces[1..] == Cut([], rest);
    }
  }

  function Join(parts: seq<string>, separator: string): string {
    if parts == [] then ""
    else if |parts| == 1 then parts[0]
    else parts[0] + separator + Join(parts[1..], separator)
  }

  method JoinAll(parts: seq<string>, trim: string -> string) returns (out: string)
    ensures out == Join(seq(|parts|, i requires 0 <= i < |parts| => trim(parts[i])), " ")
  {
    ghost var all := seq(|parts|, i requires 0 <= i < |parts| => trim(parts[i]));
    out := "";
    for i := |parts| downto 0
      invariant out == Join(all[i..], " ")
    {
      assert all[i..][0] == trim(parts[i]) && all[i..][1..] == all[i + 1..];
      out := if i == |parts| - 1 then trim(parts[i]) else trim(parts[i]) + " " + out;
    }
    assert all[0..] == all;
  }

  /** The whole summarizer: a text of few sentences as it is, else the best of its sentences in
      order, trimmed and joined by spaces. */
  method ExtractiveSummarize(text: string, n: nat, trim: string -> string, words: string -> seq<string>)
    returns (summary: string)
    ensures |Sentences(Cut([], text), trim)| <= n ==> summary == text
    ensures |Sentences(Cut([], text), trim)| > n ==>
              exists chosen ::
                && |chosen| == n && summary == Join(Trimmed(chosen, trim), " ")
                && BestOf(chosen, n, Sentences(Cut([], text), trim), words)
  {
    var sentences := SplitSentences(text, trim);
    if |sentences| <= n { return text; }
    hide Tabulates, BestInOrder, Join, Sentences, Cut;
    var parts;
    ghost var chosen;
    parts, chosen := Summarize(sentences, n, words);
    summary := JoinAll(parts, trim);
    assert seq(|parts|, i requires 0 <= i < |parts| => trim(parts[i])) == Trimmed(chosen, trim);
    assert BestOf(chosen, n, sentences, words);
  }

  function Trimmed(chosen: seq<Scored>, trim: string -> string): seq<string> {
    seq(|chosen|, i requires 0 <= i < |chosen| => trim(chosen[i].text))
  }

  /** A best selection of the sentences, in order. */
  ghost predicate BestOf(chosen: seq<Scored>, n: nat, sentences: seq<string>, words: string -> seq<string>) {
    exists table :: Tabulates(table, sentences, words) && BestInOrder(chosen, n, table)
  }
}
