// Search over normalized terms (`service/search.py`).  A normalized text is a list of words joined by
// single spaces; the trie is the set of its entries, looked up by whole term or by prefix.
module LexicalSearch {
  import opened Order
  import opened Model

  datatype Kind = ColumnKind | DatasetKind | DefinitionKind | IdentityKind

  // A value in normalized form, under the number of its field.
  datatype Value = Value(field: nat, words: seq<string>)

  datatype Subject = Subject(kind: Kind, key: string, sortLabel: string, values: seq<Value>)

  const CANONICAL_NAME: nat := 3
  const QUALIFIED_NAME: nat := 6

  // Names people remember in fragments.
  const WORD_MATCH_FIELDS: set<(Kind, nat)> :=
    {(DatasetKind, QUALIFIED_NAME), (DatasetKind, CANONICAL_NAME), (IdentityKind, CANONICAL_NAME)}

  const SEARCH_KINDS := [ColumnKind, DatasetKind, DefinitionKind, IdentityKind]

  predicate AreWords(words: seq<string>) {
    forall w :: w in words ==> w != "" && ' ' !in w
  }

  function Whole(words: seq<string>): string { JoinedBy(words, " ") }

  // `index_terms`: the whole value and each of its words.
  function Terms(words: seq<string>): (terms: set<string>)
    ensures terms == {} <==> words == []
    ensures forall t :: t in terms <==> t in words || (words != [] && t == Whole(words))
  {
    if words == [] then {} else {Whole(words)} + set w | w in words
  }

  // One way a value may match.
  datatype Match = Match(rank: nat, term: string)

  const EXACT: nat := 0
  const PREFIX: nat := 1
  const PHRASE: nat := 2
  const ALL_WORDS: nat := 3

  predicate AtLeastAsGood(m: Match, n: Match) {
    m.rank < n.rank || (m.rank == n.rank && TextLeq(m.term, n.term))
  }

  lemma GoodTotal(m: Match, n: Match)
    ensures AtLeastAsGood(m, n) || AtLeastAsGood(n, m)
    ensures AtLeastAsGood(m, n) && AtLeastAsGood(n, m) ==> m == n
  {
    TextTotal(m.term, n.term);
  }

  lemma GoodTransitive(m: Match, n: Match, o: Match)
    requires AtLeastAsGood(m, n) && AtLeastAsGood(n, o)
    ensures AtLeastAsGood(m, o)
  {
    if m.rank == n.rank == o.rank { TextTransitive(m.term, n.term, o.term); }
  }

  // ---------- what matches, value by value ----------

  predicate PhraseAt(words: seq<string>, query: seq<string>, start: nat) {
    start + |query| <= |words| && forall i :: 0 <= i < |query| ==> query[i] <= words[start + i]
  }

  predicate StartsSome(words: seq<string>, q: string) {
    exists i :: 0 <= i < |words| && q <= words[i]
  }

  // Each query word starts some word of the value.
  predicate HoldsAll(words: seq<string>, query: seq<string>) {
    forall q :: q in query ==> StartsSome(words, q)
  }

  function FirstWith(words: seq<string>, q: string): string
    requires StartsSome(words, q)
  {
    if q <= words[0] then words[0] else FirstWith(words[1..], q)
  }

  function FirstWithEach(words: seq<string>, query: seq<string>): seq<string>
    requires HoldsAll(words, query)
  {
    seq(|query|, i requires 0 <= i < |query| => FirstWith(words, query[i]))
  }

  ghost predicate FirstPhrase(words: seq<string>, query: seq<string>, start: nat) {
    PhraseAt(words, query, start) && forall other: nat :: PhraseAt(words, query, other) ==> start <= other
  }

  // The words of a value that holds every query word: the first phrase, or else, when there is none,
  // the first word for each query word.
  ghost predicate IsWordMatch(words: seq<string>, query: seq<string>, m: Match) {
    && (forall start: nat :: FirstPhrase(words, query, start) ==>
          m == Match(PHRASE, Whole(words[start..start + |query|])))
    && ((forall start: nat :: !PhraseAt(words, query, start)) ==>
          HoldsAll(words, query) && m == Match(ALL_WORDS, Whole(FirstWithEach(words, query))))
  }

  predicate ByWords(kind: Kind, field: nat) { (kind, field) in WORD_MATCH_FIELDS }

  // Only display names, qualified names and names of identities are matched word by word.
  lemma OnlyNamesByWords(kind: Kind, field: nat)
    ensures ByWords(kind, field) <==>
              || (kind == DatasetKind && (field == CANONICAL_NAME || field == QUALIFIED_NAME))
              || (kind == IdentityKind && field == CANONICAL_NAME)
  {}

  // The ways the value of a subject matches a query, by looking at it alone.
  ghost predicate Matches(kind: Kind, v: Value, query: seq<string>, m: Match) {
    || (m == Match(EXACT, Whole(query)) && Whole(query) in Terms(v.words))
    || (m.rank == PREFIX && m.term in Terms(v.words) && Whole(query) <= m.term && m.term != Whole(query))
    || (|query| > 1 && ByWords(kind, v.field) && HoldsAll(v.words, query) && IsWordMatch(v.words, query, m))
  }

  ghost predicate IsBest(kind: Kind, v: Value, query: seq<string>, m: Match) {
    Matches(kind, v, query, m) && forall n :: Matches(kind, v, query, n) ==> AtLeastAsGood(m, n)
  }

  lemma {:induction false} FirstWithIs(words: seq<string>, q: string)
    requires StartsSome(words, q)
    ensures exists i :: 0 <= i < |words| && FirstWith(words, q) == words[i] && q <= words[i]
              && forall j :: 0 <= j < i ==> !(q <= words[j])
  {
    if q <= words[0] {
    } else {
      var i :| 0 <= i < |words| && q <= words[i];
      assert words[1..][i - 1] == words[i];
      FirstWithIs(words[1..], q);
      var k :| 0 <= k < |words[1..]| && FirstWith(words[1..], q) == words[1..][k] && q <= words[1..][k]
        && forall j :: 0 <= j < k ==> !(q <= words[1..][j]);
      assert words[k + 1] == words[1..][k];
      forall j | 0 <= j < k + 1 ensures !(q <= words[j]) {
        if j > 0 { assert words[j] == words[1..][j - 1]; }
      }
    }
  }

  // Some phrase means a first one.
  lemma {:induction false} FirstPhraseExists(words: seq<string>, query: seq<string>, start: nat) returns (first: nat)
    requires PhraseAt(words, query, start)
    ensures FirstPhrase(words, query, first)
    decreases start
  {
    if other: nat :| other < start && PhraseAt(words, query, other) {
      first := FirstPhraseExists(words, query, other);
    } else {
      first := start;
    }
  }

  method FindPhrase(words: seq<string>, query: seq<string>) returns (start: Option<nat>)
    ensures start.Some? ==> FirstPhrase(words, query, start.value)
    ensures start.None? ==> forall other: nat :: !PhraseAt(words, query, other)
  {
    var at: nat := 0;
    while at + |query| <= |words|
      invariant at <= |words| + 1
      invariant forall other: nat :: PhraseAt(words, query, other) ==> at <= other
    {
      var window := words[at..at + |query|];
      var fits := forall i :: 0 <= i < |query| ==> query[i] <= window[i];
      assert fits <==> PhraseAt(words, query, at) by {
        assert forall i :: 0 <= i < |query| ==> window[i] == words[at + i];
      }
      if fits {
        return Some(at);
      }
      at := at + 1;
    }
    return None;
  }

  // `_word_match`; a value that holds every query word always yields a match.
  method WordMatch(words: seq<string>, query: seq<string>) returns (m: Match)
    requires HoldsAll(words, query)
    ensures IsWordMatch(words, query, m)
  {
    var start := FindPhrase(words, query);
    if start.Some? {
      return Match(PHRASE, Whole(words[start.value..start.value + |query|]));
    }
    return Match(ALL_WORDS, Whole(FirstWithEach(words, query)));
  }

  // ---------- the index ----------

  type Entry = (string, nat, nat)

  ghost predicate ValidSubjects(subjects: seq<Subject>) {
    forall s, v :: s in subjects && v in s.values ==> AreWords(v.words)
  }

  predicate IsValue(subjects: seq<Subject>, o: nat, v: nat) {
    o < |subjects| && v < |subjects[o].values|
  }

  // Every value is entered under each of its terms, and nothing else is.
  ghost predicate Indexed(subjects: seq<Subject>, entries: set<Entry>) {
    forall t, o: nat, v: nat :: (t, o, v) in entries <==>
        IsValue(subjects, o, v) && t in Terms(subjects[o].values[v].words)
  }

  function EntriesOf(terms: set<string>, o: nat, v: nat): set<Entry> {
    set t | t in terms :: (t, o, v)
  }

  // The values that have terms, in the order given.
  function WithTerms(fields: seq<Value>): (r: seq<Value>)
    ensures forall f :: f in r <==> f in fields && f.words != []
  {
    if fields == [] then []
    else
      var before, last := WithTerms(fields[..|fields| - 1]), fields[|fields| - 1];
      if last.words == [] then before else before + [last]
  }

  // Values without terms are dropped (`add_subject`).
  method AddSubject(subjects: seq<Subject>, entries: set<Entry>, kind: Kind, key: string, sortLabel: string,
                    fields: seq<Value>)
    returns (subjects': seq<Subject>, entries': set<Entry>)
    requires Indexed(subjects, entries) && ValidSubjects(subjects) && forall f :: f in fields ==> AreWords(f.words)
    ensures Indexed(subjects', entries') && ValidSubjects(subjects')
    ensures subjects' == subjects + [Subject(kind, key, sortLabel, WithTerms(fields))]
  {
    var ordinal := |subjects|;
    var values: seq<Value> := [];
    entries' := entries;
    IndexedBegin(subjects, entries, kind, key, sortLabel);
    for n := 0 to |fields|
      invariant values == WithTerms(fields[..n])
      invariant Indexed(subjects + [Subject(kind, key, sortLabel, values)], entries')
    {
      assert fields[..n + 1][..n] == fields[..n];
      var terms := Terms(fields[n].words);
      assert terms == {} <==> fields[n].words == [];
      if terms == {} {
        continue;
      }
      IndexedNext(subjects, entries', kind, key, sortLabel, values, fields[n]);
      entries' := entries' + EntriesOf(terms, ordinal, |values|);
      values := values + [fields[n]];
    }
    assert fields[..|fields|] == fields;
    subjects' := subjects + [Subject(kind, key, sortLabel, values)];
  }

  lemma IndexedBegin(subjects: seq<Subject>, entries: set<Entry>, kind: Kind, key: string, sortLabel: string)
    requires Indexed(subjects, entries)
    ensures Indexed(subjects + [Subject(kind, key, sortLabel, [])], entries)
  {
    var after := subjects + [Subject(kind, key, sortLabel, [])];
    forall t, o: nat, v: nat
      ensures (t, o, v) in entries <==> IsValue(after, o, v) && t in Terms(after[o].values[v].words)
    {
      assert IsValue(after, o, v) <==> IsValue(subjects, o, v);
    }
  }

  lemma IndexedNext(subjects: seq<Subject>, entries: set<Entry>, kind: Kind, key: string, sortLabel: string,
                    values: seq<Value>, f: Value)
    requires Indexed(subjects + [Subject(kind, key, sortLabel, values)], entries)
    ensures Indexed(subjects + [Subject(kind, key, sortLabel, values + [f])],
                    entries + EntriesOf(Terms(f.words), |subjects|, |values|))
  {
    var before := subjects + [Subject(kind, key, sortLabel, values)];
    var after := subjects + [Subject(kind, key, sortLabel, values + [f])];
    var added := EntriesOf(Terms(f.words), |subjects|, |values|);
    forall t, o: nat, v: nat
      ensures (t, o, v) in entries + added <==> IsValue(after, o, v) && t in Terms(after[o].values[v].words)
    {
      assert (t, o, v) in added <==> o == |subjects| && v == |values| && t in Terms(f.words);
      if IsValue(after, o, v) && !(o == |subjects| && v == |values|) {
        assert IsValue(before, o, v) && after[o].values[v] == before[o].values[v];
      }
    }
  }

  // ---------- the best match of every value ----------

  type Best = map<nat, map<nat, Match>>

  type Considered = set<(nat, nat, Match)>

  // `best` holds the best of the matches considered for every value.
  ghost predicate Bests(best: Best, considered: Considered) {
    && (forall o :: o in best ==> best[o] != map[])
    && (forall o, v :: o in best && v in best[o] ==> (o, v, best[o][v]) in considered)
    && (forall o, v, m :: (o, v, m) in considered ==> o in best && v in best[o] && AtLeastAsGood(best[o][v], m))
  }

  function Consider(best: Best, o: nat, v: nat, m: Match): Best {
    var matches := if o in best then best[o] else map[];
    if v !in matches || !AtLeastAsGood(matches[v], m) then best[o := matches[v := m]] else best[o := matches]
  }

  lemma ConsiderKeeps(best: Best, considered: Considered, o: nat, v: nat, m: Match)
    requires Bests(best, considered)
    ensures Bests(Consider(best, o, v, m), considered + {(o, v, m)})
  {
    var after := Consider(best, o, v, m);
    GoodTotal(m, m);
    forall p, w, n | (p, w, n) in considered + {(o, v, m)}
      ensures p in after && w in after[p] && AtLeastAsGood(after[p][w], n)
    {
      if (p, w) == (o, v) && (p, w, n) in considered && after[p][w] != best[p][w] {
        GoodTotal(best[p][w], m);
        GoodTransitive(m, best[p][w], n);
      }
    }
  }

  // Consider a whole set of matches, in whatever order it is walked.
  method ConsiderAll(best: Best, ghost considered: Considered, more: Considered) returns (best': Best)
    requires Bests(best, considered)
    ensures Bests(best', considered + more)
  {
    best' := best;
    var rest := more;
    ghost var seen := considered;
    while rest != {}
      invariant seen + rest == considered + more
      invariant Bests(best', seen)
      decreases |rest|
    {
      var x :| x in rest;
      ConsiderKeeps(best', seen, x.0, x.1, x.2);
      assert x == (x.0, x.1, x.2);
      best' := Consider(best', x.0, x.1, x.2);
      seen := seen + {x};
      rest := rest - {x};
    }
    assert seen == considered + more;
  }

  // ---------- candidate matches from the trie ----------

  predicate Selects(subjects: seq<Subject>, selected: set<Kind>, o: nat) {
    o < |subjects| && subjects[o].kind in selected
  }

  // `trie.get(normalized)`
  function ExactMatches(subjects: seq<Subject>, entries: set<Entry>, selected: set<Kind>,
                        query: seq<string>): Considered {
    set e | e in entries && e.0 == Whole(query) && Selects(subjects, selected, e.1) ::
        (e.1, e.2, Match(EXACT, Whole(query)))
  }

  // `trie.iteritems(normalized)`
  function PrefixMatches(subjects: seq<Subject>, entries: set<Entry>, selected: set<Kind>,
                         query: seq<string>): Considered {
    set e | e in entries && Whole(query) <= e.0 && e.0 != Whole(query) && Selects(subjects, selected, e.1) ::
        (e.1, e.2, Match(PREFIX, e.0))
  }

  // The values of word-match fields with a term starting with `word`.
  function ValuesWith(subjects: seq<Subject>, entries: set<Entry>, selected: set<Kind>, word: string): set<(nat, nat)> {
    set e | e in entries && word <= e.0 && Selects(subjects, selected, e.1)
            && e.2 < |subjects[e.1].values| && ByWords(subjects[e.1].kind, subjects[e.1].values[e.2].field) ::
                   (e.1, e.2)
  }

  ghost predicate AreWithEvery(subjects: seq<Subject>, entries: set<Entry>, selected: set<Kind>, words: seq<string>,
                               values: set<(nat, nat)>) {
    forall p :: p in values <==> WithEvery(subjects, entries, selected, words, p)
  }

  ghost predicate WithEvery(subjects: seq<Subject>, entries: set<Entry>, selected: set<Kind>, words: seq<string>,
                            p: (nat, nat)) {
    forall word :: word in words ==> p in ValuesWith(subjects, entries, selected, word)
  }

  function LengthKey(word: string): Key { Tuple([Num(-|word|), Text(word)]) }

  lemma LengthKeyDistinguishes(words: set<string>)
    ensures Distinguishes(LengthKey, words)
  {
    forall x, y | x in words && y in words && LengthKey(x) == LengthKey(y) ensures x == y {
      assert LengthKey(x).items[1] == Text(x) && LengthKey(y).items[1] == Text(y);
    }
  }

  // The distinct words, longest first.
  method LongestFirst(words: seq<string>) returns (order: seq<string>)
    ensures forall w :: w in order <==> w in words
  {
    LengthKeyDistinguishes(set w | w in words);
    order := Sorted((set w | w in words), LengthKey);
  }

  // `_values_with_every_word`: longest words first, stopping when nothing is left.
  method ValuesWithEveryWord(subjects: seq<Subject>, entries: set<Entry>, selected: set<Kind>, words: seq<string>)
    returns (common: set<(nat, nat)>)
    requires words != []
    ensures AreWithEvery(subjects, entries, selected, words, common)
  {
    var order := LongestFirst(words);
    assert words[0] in order;
    common := ValuesWith(subjects, entries, selected, order[0]);
    var n := 1;
    EveryFirst(subjects, entries, selected, order);
    while n < |order| && common != {}
      invariant 1 <= n <= |order|
      invariant AreWithEvery(subjects, entries, selected, order[..n], common)
    {
      EveryNext(subjects, entries, selected, order, n, common);
      common := common * ValuesWith(subjects, entries, selected, order[n]);
      n := n + 1;
    }
    EveryAll(subjects, entries, selected, order, n, words, common);
  }

  lemma EveryFirst(subjects: seq<Subject>, entries: set<Entry>, selected: set<Kind>, order: seq<string>)
    requires order != []
    ensures AreWithEvery(subjects, entries, selected, order[..1], ValuesWith(subjects, entries, selected, order[0]))
  {
    assert order[..1] == [order[0]];
    forall p
      ensures p in ValuesWith(subjects, entries, selected, order[0]) <==>
                WithEvery(subjects, entries, selected, order[..1], p)
    {
      assert order[0] in order[..1];
    }
  }

  lemma EveryNext(subjects: seq<Subject>, entries: set<Entry>, selected: set<Kind>, order: seq<string>, n: nat,
                  common: set<(nat, nat)>)
    requires n < |order| && AreWithEvery(subjects, entries, selected, order[..n], common)
    ensures AreWithEvery(subjects, entries, selected, order[..n + 1],
                         common * ValuesWith(subjects, entries, selected, order[n]))
  {
    var more := ValuesWith(subjects, entries, selected, order[n]);
    assert order[..n + 1] == order[..n] + [order[n]];
    forall p ensures p in common * more <==> WithEvery(subjects, entries, selected, order[..n + 1], p) {
      assert order[n] in order[..n + 1];
      if WithEvery(subjects, entries, selected, order[..n + 1], p) {
        assert forall w :: w in order[..n] ==> w in order[..n + 1];
      }
    }
  }

  // Nothing with the first words, or all words looked at.
  lemma EveryAll(subjects: seq<Subject>, entries: set<Entry>, selected: set<Kind>, order: seq<string>, n: nat,
                 words: seq<string>, common: set<(nat, nat)>)
    requires n <= |order| && (n == |order| || common == {}) && forall w :: w in order <==> w in words
    requires AreWithEvery(subjects, entries, selected, order[..n], common)
    ensures AreWithEvery(subjects, entries, selected, words, common)
  {
    forall p ensures p in common <==> WithEvery(subjects, entries, selected, words, p) {
      if WithEvery(subjects, entries, selected, words, p) {
        assert forall w :: w in order[..n] ==> w in words;
      } else if common != {} {
        assert order[..n] == order;
      }
    }
  }

  // ---------- words and prefixes ----------

  lemma {:induction false} WholeStarts(words: seq<string>, q: string)
    requires words != [] && ' ' !in q && q <= Whole(words)
    ensures q <= words[0]
  {
    if |words| > 1 {
      var first := words[0];
      assert Whole(words) == first + " " + Whole(words[1..]);
      assert Whole(words)[|first|] == ' ';
      assert forall i :: 0 <= i < |q| ==> Whole(words)[i] == q[i] && q[i] in q;
      assert |q| <= |first|;
    }
  }

  // A term of a value starts with a word exactly when a word of the value does.
  lemma TermStarts(words: seq<string>, q: string)
    requires AreWords(words) && q != "" && ' ' !in q
    ensures (exists t :: t in Terms(words) && q <= t) <==> StartsSome(words, q)
  {
    if t :| t in Terms(words) && q <= t {
      if t == Whole(words) {
        WholeStarts(words, q);
        assert q <= words[0];
      } else {
        var i :| 0 <= i < |words| && words[i] == t;
      }
    }
    if StartsSome(words, q) {
      var i :| 0 <= i < |words| && q <= words[i];
      assert words[i] in Terms(words);
    }
  }

  // What `_word_match` is given always holds every query word.
  lemma EveryMeansHolds(subjects: seq<Subject>, entries: set<Entry>, selected: set<Kind>, query: seq<string>, o: nat,
                        v: nat)
    requires Indexed(subjects, entries) && ValidSubjects(subjects) && AreWords(query) && query != []
    ensures WithEvery(subjects, entries, selected, query, (o, v)) <==>
            Selects(subjects, selected, o) && IsValue(subjects, o, v)
            && ByWords(subjects[o].kind, subjects[o].values[v].field) && HoldsAll(subjects[o].values[v].words, query)
  {
    if WithEvery(subjects, entries, selected, query, (o, v)) {
      assert (o, v) in ValuesWith(subjects, entries, selected, query[0]);
      forall q | q in query ensures StartsSome(subjects[o].values[v].words, q) {
        assert (o, v) in ValuesWith(subjects, entries, selected, q);
        var e :| e in entries && q <= e.0 && (e.1, e.2) == (o, v);
        assert e == (e.0, o, v) && subjects[o] in subjects && subjects[o].values[v] in subjects[o].values;
        TermStarts(subjects[o].values[v].words, q);
      }
    }
    if Selects(subjects, selected, o) && IsValue(subjects, o, v)
       && ByWords(subjects[o].kind, subjects[o].values[v].field) && HoldsAll(subjects[o].values[v].words, query) {
      forall q | q in query ensures (o, v) in ValuesWith(subjects, entries, selected, q) {
        assert subjects[o] in subjects && subjects[o].values[v] in subjects[o].values;
        TermStarts(subjects[o].values[v].words, q);
        var t :| t in Terms(subjects[o].values[v].words) && q <= t;
        assert (t, o, v) in entries;
      }
    }
  }

  // ---------- the search ----------

  // Every match of every value of the selected kinds.
  ghost predicate AllConsidered(subjects: seq<Subject>, selected: set<Kind>, query: seq<string>,
                                considered: Considered) {
    forall o: nat, v: nat, m ::
      (o, v, m) in considered <==>
        Selects(subjects, selected, o) && IsValue(subjects, o, v)
        && Matches(subjects[o].kind, subjects[o].values[v], query, m)
  }

  // The index search finds what looking at every value would.
  ghost predicate AgreesWithScan(subjects: seq<Subject>, selected: set<Kind>, query: seq<string>, best: Best) {
    forall o: nat, v: nat ::
      if o in best && v in best[o] then
        && Selects(subjects, selected, o) && IsValue(subjects, o, v)
        && IsBest(subjects[o].kind, subjects[o].values[v], query, best[o][v])
      else
        Selects(subjects, selected, o) && IsValue(subjects, o, v) ==>
          forall m :: !Matches(subjects[o].kind, subjects[o].values[v], query, m)
  }

  lemma BestsAgree(subjects: seq<Subject>, selected: set<Kind>, query: seq<string>, best: Best, considered: Considered)
    requires Bests(best, considered) && AllConsidered(subjects, selected, query, considered)
    ensures AgreesWithScan(subjects, selected, query, best)
  {
    forall o: nat, v: nat
      ensures if o in best && v in best[o] then
                && Selects(subjects, selected, o) && IsValue(subjects, o, v)
                && IsBest(subjects[o].kind, subjects[o].values[v], query, best[o][v])
              else
                Selects(subjects, selected, o) && IsValue(subjects, o, v) ==>
                  forall m :: !Matches(subjects[o].kind, subjects[o].values[v], query, m)
    {
      if o in best && v in best[o] {
        assert (o, v, best[o][v]) in considered;
        forall m | Matches(subjects[o].kind, subjects[o].values[v], query, m) ensures AtLeastAsGood(best[o][v], m) {
          assert (o, v, m) in considered;
        }
      } else if Selects(subjects, selected, o) && IsValue(subjects, o, v) {
        forall m ensures !Matches(subjects[o].kind, subjects[o].values[v], query, m) {
          assert (o, v, m) !in considered;
        }
      }
    }
  }

  lemma WordMatchUnique(words: seq<string>, query: seq<string>, m: Match, n: Match)
    requires IsWordMatch(words, query, m) && IsWordMatch(words, query, n)
    ensures m == n
  {
    if start: nat :| PhraseAt(words, query, start) {
      var first := FirstPhraseExists(words, query, start);
    }
  }

  // The word matches of the given values.
  ghost predicate WordMatches(subjects: seq<Subject>, query: seq<string>, values: set<(nat, nat)>,
                              matches: Considered) {
    forall o: nat, v: nat, m :: (o, v, m) in matches <==>
      (o, v) in values && IsValue(subjects, o, v) && IsWordMatch(subjects[o].values[v].words, query, m)
  }

  lemma WordMatchesNext(subjects: seq<Subject>, query: seq<string>, values: set<(nat, nat)>, matches: Considered,
                        p: (nat, nat), m: Match)
    requires WordMatches(subjects, query, values, matches) && IsValue(subjects, p.0, p.1)
    requires IsWordMatch(subjects[p.0].values[p.1].words, query, m)
    ensures WordMatches(subjects, query, values + {p}, matches + {(p.0, p.1, m)})
  {
    forall o: nat, v: nat, n
      ensures (o, v, n) in matches + {(p.0, p.1, m)} <==>
                (o, v) in values + {p} && IsValue(subjects, o, v) && IsWordMatch(subjects[o].values[v].words, query, n)
    {
      if (o, v) == p && IsWordMatch(subjects[o].values[v].words, query, n) {
        WordMatchUnique(subjects[o].values[v].words, query, m, n);
      }
    }
  }

  method ConsiderWords(subjects: seq<Subject>, query: seq<string>, best: Best, ghost considered: Considered,
                       values: set<(nat, nat)>)
    returns (best': Best, ghost matches: Considered)
    requires Bests(best, considered)
    requires forall p :: p in values ==> IsValue(subjects, p.0, p.1) && HoldsAll(subjects[p.0].values[p.1].words, query)
    ensures WordMatches(subjects, query, values, matches) && Bests(best', considered + matches)
  {
    best', matches := best, {};
    var rest := values;
    assert considered + matches == considered;
    while rest != {}
      invariant rest <= values && WordMatches(subjects, query, values - rest, matches)
      invariant Bests(best', considered + matches)
      decreases |rest|
    {
      var p :| p in rest;
      var m := WordMatch(subjects[p.0].values[p.1].words, query);
      WordMatchesNext(subjects, query, values - rest, matches, p, m);
      assert values - (rest - {p}) == values - rest + {p};
      ConsiderKeeps(best', considered + matches, p.0, p.1, m);
      assert considered + matches + {(p.0, p.1, m)} == considered + (matches + {(p.0, p.1, m)});
      best' := Consider(best', p.0, p.1, m);
      matches := matches + {(p.0, p.1, m)};
      rest := rest - {p};
    }
    assert values - rest == values;
  }

  lemma Exacts(subjects: seq<Subject>, entries: set<Entry>, selected: set<Kind>, query: seq<string>, o: nat, v: nat,
               m: Match)
    requires Indexed(subjects, entries)
    ensures (o, v, m) in ExactMatches(subjects, entries, selected, query) <==>
              && Selects(subjects, selected, o) && IsValue(subjects, o, v)
              && m == Match(EXACT, Whole(query)) && Whole(query) in Terms(subjects[o].values[v].words)
  {
    if (o, v, m) in ExactMatches(subjects, entries, selected, query) {
      var e :| e in entries && e.0 == Whole(query) && Selects(subjects, selected, e.1)
                 && (o, v, m) == (e.1, e.2, Match(EXACT, Whole(query)));
      assert e == (e.0, o, v);
    }
    if Selects(subjects, selected, o) && IsValue(subjects, o, v) && m == Match(EXACT, Whole(query))
       && Whole(query) in Terms(subjects[o].values[v].words) {
      assert (Whole(query), o, v) in entries;
    }
  }

  lemma Prefixes(subjects: seq<Subject>, entries: set<Entry>, selected: set<Kind>, query: seq<string>, o: nat, v: nat,
                 m: Match)
    requires Indexed(subjects, entries)
    ensures (o, v, m) in PrefixMatches(subjects, entries, selected, query) <==>
              && Selects(subjects, selected, o) && IsValue(subjects, o, v)
              && m.rank == PREFIX && m.term in Terms(subjects[o].values[v].words)
              && Whole(query) <= m.term && m.term != Whole(query)
  {
    if (o, v, m) in PrefixMatches(subjects, entries, selected, query) {
      var e :| e in entries && Whole(query) <= e.0 && e.0 != Whole(query) && Selects(subjects, selected, e.1)
        && (o, v, m) == (e.1, e.2, Match(PREFIX, e.0));
      assert e == (e.0, o, v);
    }
    if Selects(subjects, selected, o) && IsValue(subjects, o, v) && m.rank == PREFIX
       && m.term in Terms(subjects[o].values[v].words) && Whole(query) <= m.term && m.term != Whole(query) {
      assert (m.term, o, v) in entries && m == Match(PREFIX, m.term);
    }
  }

  lemma Collected(subjects: seq<Subject>, entries: set<Entry>, selected: set<Kind>, query: seq<string>,
                  common: set<(nat, nat)>, words: Considered)
    requires Indexed(subjects, entries) && ValidSubjects(subjects) && AreWords(query) && query != []
    requires |query| > 1 ==> AreWithEvery(subjects, entries, selected, query, common)
    requires |query| <= 1 ==> common == {}
    requires WordMatches(subjects, query, common, words)
    ensures AllConsidered(subjects, selected, query,
              ExactMatches(subjects, entries, selected, query) + PrefixMatches(subjects, entries, selected, query)
                + words)
  {
    var all := ExactMatches(subjects, entries, selected, query) + PrefixMatches(subjects, entries, selected, query)
                 + words;
    forall o: nat, v: nat, m
      ensures (o, v, m) in all <==>
                Selects(subjects, selected, o) && IsValue(subjects, o, v)
                && Matches(subjects[o].kind, subjects[o].values[v], query, m)
    {
      Exacts(subjects, entries, selected, query, o, v, m);
      Prefixes(subjects, entries, selected, query, o, v, m);
      EveryMeansHolds(subjects, entries, selected, query, o, v);
    }
  }

  // Look the query up in the trie.
  method FindBest(subjects: seq<Subject>, entries: set<Entry>, selected: set<Kind>, query: seq<string>)
    returns (best: Best)
    requires Indexed(subjects, entries) && ValidSubjects(subjects) && AreWords(query) && query != []
    ensures AgreesWithScan(subjects, selected, query, best)
    ensures forall o :: o in best ==> o < |subjects| && best[o] != map[]
  {
    var exact := ExactMatches(subjects, entries, selected, query);
    var prefix := PrefixMatches(subjects, entries, selected, query);
    assert Bests(map[], {});
    best := ConsiderAll(map[], {}, exact);
    best := ConsiderAll(best, {} + exact, prefix);
    var common: set<(nat, nat)> := {};
    if |query| > 1 {
      common := ValuesWithEveryWord(subjects, entries, selected, query);
    }
    forall p | p in common ensures IsValue(subjects, p.0, p.1) && HoldsAll(subjects[p.0].values[p.1].words, query) {
      EveryMeansHolds(subjects, entries, selected, query, p.0, p.1);
    }
    ghost var words;
    best, words := ConsiderWords(subjects, query, best, {} + exact + prefix, common);
    Collected(subjects, entries, selected, query, common, words);
    assert {} + exact + prefix + words == exact + prefix + words;
    BestsAgree(subjects, selected, query, best, exact + prefix + words);
    forall o | o in best ensures o < |subjects| {
      SomeKey(best[o]);
      var v :| v in best[o];
    }
  }

  lemma SomeKey(matches: map<nat, Match>)
    requires matches != map[]
    ensures exists v :: v in matches
  {
    assert matches.Keys == {} ==> matches == map[];
  }

  // ---------- groups ----------

  // Subjects by best rank: rank and ordinal.
  type Ranking = seq<(nat, nat)>

  datatype Group = Group(kind: Kind, listed: Ranking, truncated: bool)

  function RankKey(subjects: seq<Subject>): ((nat, nat)) -> Key {
    (item: (nat, nat)) =>
      if item.1 < |subjects| then Tuple([Num(item.0), Text(subjects[item.1].sortLabel), Text(subjects[item.1].key)])
        else Tuple([])
  }

  ghost predicate IsBestRank(matches: map<nat, Match>, r: nat) {
    (exists v :: v in matches && matches[v].rank == r) && forall v :: v in matches ==> r <= matches[v].rank
  }

  // The matching subjects of one kind, each with its best rank.
  ghost predicate Ranks(subjects: seq<Subject>, best: Best, kind: Kind, ranking: Ranking) {
    && NoDuplicates(ranking)
    && forall r: nat, o: nat :: (r, o) in ranking <==>
           o < |subjects| && o in best && subjects[o].kind == kind && IsBestRank(best[o], r)
  }

  // Ordered by best match, then label, then key; the first `limit` listed.
  ghost predicate GroupFits(subjects: seq<Subject>, best: Best, limit: nat, kind: Kind, g: Group) {
    && g.kind == kind
    && exists ordered ::
         && Ascending(ordered, RankKey(subjects)) && Ranks(subjects, best, kind, ordered)
         && g.listed == (if limit < |ordered| then ordered[..limit] else ordered)
         && (g.truncated <==> |ordered| > limit)
  }

  method LeastRank(matches: map<nat, Match>) returns (r: nat)
    requires matches != map[]
    ensures IsBestRank(matches, r)
  {
    SomeKey(matches);
    var v :| v in matches;
    r := matches[v].rank;
    var rest := matches.Keys - {v};
    while rest != {}
      invariant rest <= matches.Keys
      invariant exists w :: w in matches && matches[w].rank == r
      invariant forall w :: w in matches.Keys - rest ==> r <= matches[w].rank
      decreases |rest|
    {
      var w :| w in rest;
      if matches[w].rank < r {
        r := matches[w].rank;
      }
      rest := rest - {w};
    }
  }

  // The matching subjects of one kind.
  method RankKind(subjects: seq<Subject>, best: Best, kind: Kind) returns (ranking: Ranking)
    requires forall o :: o in best ==> o < |subjects| && best[o] != map[]
    ensures Ranks(subjects, best, kind, ranking)
  {
    ranking := [];
    for n := 0 to |subjects|
      invariant NoDuplicates(ranking)
      invariant forall r: nat, o: nat ::
                  (r, o) in ranking <==> o < n && o in best && subjects[o].kind == kind && IsBestRank(best[o], r)
    {
      if n in best && subjects[n].kind == kind {
        var r := LeastRank(best[n]);
        ranking := ranking + [(r, n)];
      }
    }
  }

  method GroupOf(subjects: seq<Subject>, best: Best, limit: nat, kind: Kind) returns (g: Group)
    requires forall o :: o in best ==> o < |subjects| && best[o] != map[]
    ensures GroupFits(subjects, best, limit, kind, g)
  {
    var ranking := RankKind(subjects, best, kind);
    var ordered := StablySorted(ranking, RankKey(subjects));
    SamePermutation(ordered, ranking);
    assert Ranks(subjects, best, kind, ordered);
    g := Group(kind, if limit < |ordered| then ordered[..limit] else ordered, |ordered| > limit);
  }

  function SelectedKinds(kinds: Option<set<Kind>>, from: seq<Kind>): seq<Kind> {
    if from == [] then []
    else
      var before, last := SelectedKinds(kinds, from[..|from| - 1]), from[|from| - 1];
      if kinds.None? || last in kinds.value then before + [last] else before
  }

  ghost predicate AnyTruncated(groups: seq<Group>) {
    exists i :: 0 <= i < |groups| && groups[i].truncated
  }

  ghost predicate AllGrouped(subjects: seq<Subject>, best: Best, limit: nat, selected: seq<Kind>, groups: seq<Group>) {
    |groups| == |selected| && forall i :: 0 <= i < |groups| ==> GroupFits(subjects, best, limit, selected[i], groups[i])
  }

  lemma AllGroupedNext(subjects: seq<Subject>, best: Best, limit: nat, selected: seq<Kind>, groups: seq<Group>,
                       kind: Kind, g: Group)
    requires AllGrouped(subjects, best, limit, selected, groups) && GroupFits(subjects, best, limit, kind, g)
    ensures AllGrouped(subjects, best, limit, selected + [kind], groups + [g])
  {
    forall i | 0 <= i < |groups + [g]|
      ensures GroupFits(subjects, best, limit, (selected + [kind])[i], (groups + [g])[i])
    {
      if i < |groups| { assert GroupFits(subjects, best, limit, selected[i], groups[i]); }
    }
  }

  method GroupEach(subjects: seq<Subject>, best: Best, limit: nat, selected: seq<Kind>)
    returns (groups: seq<Group>, truncated: bool)
    requires forall o :: o in best ==> o < |subjects| && best[o] != map[]
    ensures AllGrouped(subjects, best, limit, selected, groups)
    ensures truncated <==> AnyTruncated(groups)
  {
    groups, truncated := [], false;
    for n := 0 to |selected|
      invariant AllGrouped(subjects, best, limit, selected[..n], groups)
      invariant truncated <==> AnyTruncated(groups)
    {
      assert selected[..n + 1] == selected[..n] + [selected[n]];
      var g := GroupOf(subjects, best, limit, selected[n]);
      AnyTruncatedNext(groups, g);
      AllGroupedNext(subjects, best, limit, selected[..n], groups, selected[n], g);
      groups := groups + [g];
      truncated := truncated || g.truncated;
    }
    assert selected[..|selected|] == selected;
  }

  lemma AnyTruncatedNext(groups: seq<Group>, g: Group)
    ensures AnyTruncated(groups + [g]) <==> AnyTruncated(groups) || g.truncated
  {
    if g.truncated { assert (groups + [g])[|groups|].truncated; }
    if i :| 0 <= i < |groups| && groups[i].truncated { assert (groups + [g])[i].truncated; }
  }

  // The bests a scan of all values finds; the empty query finds none.
  ghost predicate FoundByScan(subjects: seq<Subject>, selected: seq<Kind>, query: seq<string>, best: Best) {
    if query == [] then best == map[] else AgreesWithScan(subjects, (set k | k in selected), query, best)
  }

  // ---------- precedence, from terms and words alone ----------

  ghost predicate ValueExact(v: Value, query: seq<string>) { Whole(query) in Terms(v.words) }

  ghost predicate ValuePrefix(v: Value, query: seq<string>) {
    exists t :: t in Terms(v.words) && Whole(query) <= t && t != Whole(query)
  }

  ghost predicate ValuePhrase(kind: Kind, v: Value, query: seq<string>) {
    |query| > 1 && ByWords(kind, v.field) && HoldsAll(v.words, query) && exists start: nat ::
      PhraseAt(v.words, query, start)
  }

  ghost predicate ValueWords(kind: Kind, v: Value, query: seq<string>) {
    |query| > 1 && ByWords(kind, v.field) && HoldsAll(v.words, query)
  }

  // Some value has the whole query among its terms.
  ghost predicate HasExact(s: Subject, query: seq<string>) {
    exists i :: 0 <= i < |s.values| && ValueExact(s.values[i], query)
  }

  // Some value has a longer term that starts with it.
  ghost predicate HasPrefix(s: Subject, query: seq<string>) {
    exists i :: 0 <= i < |s.values| && ValuePrefix(s.values[i], query)
  }

  // Some value of a name holds the query words one after the other.
  ghost predicate HasPhrase(s: Subject, query: seq<string>) {
    exists i :: 0 <= i < |s.values| && ValuePhrase(s.kind, s.values[i], query)
  }

  // Some value of a name holds them all.
  ghost predicate HasWords(s: Subject, query: seq<string>) {
    exists i :: 0 <= i < |s.values| && ValueWords(s.kind, s.values[i], query)
  }

  ghost predicate IsFound(s: Subject, query: seq<string>) {
    HasExact(s, query) || HasPrefix(s, query) || HasPhrase(s, query) || HasWords(s, query)
  }

  // `s` matches at least as well as `t`: exact before prefix before phrase before all words.
  ghost predicate NoWorse(s: Subject, t: Subject, query: seq<string>) {
    && (HasExact(t, query) ==> HasExact(s, query))
    && (HasPrefix(t, query) ==> HasExact(s, query) || HasPrefix(s, query))
    && (HasPhrase(t, query) ==> HasExact(s, query) || HasPrefix(s, query) || HasPhrase(s, query))
    && (HasWords(t, query) ==> IsFound(s, query))
  }

  // Among equally good ones, by label, then key.
  ghost predicate ComesBefore(s: Subject, t: Subject, query: seq<string>) {
    && NoWorse(s, t, query)
    && (NoWorse(t, s, query) ==>
          if s.sortLabel != t.sortLabel then TextLeq(s.sortLabel, t.sortLabel) else TextLeq(s.key, t.key))
  }

  // A value's best match: the whole query if it is a term; otherwise the least longer term starting with it;
  // otherwise its words.
  lemma KeptMatch(kind: Kind, v: Value, query: seq<string>, m: Match)
    requires IsBest(kind, v, query, m)
    ensures ValueExact(v, query) ==> m.term == Whole(query)
    ensures !ValueExact(v, query) && ValuePrefix(v, query) ==>
              && m.term in Terms(v.words) && Whole(query) <= m.term
              && forall t :: t in Terms(v.words) && Whole(query) <= t ==> TextLeq(m.term, t)
    ensures !ValueExact(v, query) && !ValuePrefix(v, query) ==>
              ValueWords(kind, v, query) && IsWordMatch(v.words, query, m)
  {
    if ValueExact(v, query) {
      assert Matches(kind, v, query, Match(EXACT, Whole(query)));
      WordRank(v.words, query, m);
    } else if ValuePrefix(v, query) {
      var t :| t in Terms(v.words) && Whole(query) <= t && t != Whole(query);
      assert Matches(kind, v, query, Match(PREFIX, t));
      WordRank(v.words, query, m);
      forall u | u in Terms(v.words) && Whole(query) <= u ensures TextLeq(m.term, u) {
        assert Matches(kind, v, query, Match(PREFIX, u));
      }
    }
  }

  lemma WordRank(words: seq<string>, query: seq<string>, m: Match)
    ensures IsWordMatch(words, query, m) ==>
              m.rank == if exists start: nat :: PhraseAt(words, query, start) then PHRASE else ALL_WORDS
  {
    if start: nat :| PhraseAt(words, query, start) {
      var first := FirstPhraseExists(words, query, start);
    }
  }

  // What the rank of a value's best match says of it.
  lemma ValueRank(kind: Kind, v: Value, query: seq<string>, m: Match)
    requires IsBest(kind, v, query, m)
    ensures m.rank <= ALL_WORDS
    ensures m.rank <= EXACT <==> ValueExact(v, query)
    ensures m.rank <= PREFIX <==> ValueExact(v, query) || ValuePrefix(v, query)
    ensures m.rank <= PHRASE <==> ValueExact(v, query) || ValuePrefix(v, query) || ValuePhrase(kind, v, query)
  {
    WordRank(v.words, query, m);
    if ValueExact(v, query) {
      assert Matches(kind, v, query, Match(EXACT, Whole(query)));
    }
    if t :| t in Terms(v.words) && Whole(query) <= t && t != Whole(query) {
      assert Matches(kind, v, query, Match(PREFIX, t));
    }
    if ValuePhrase(kind, v, query) {
      var start: nat :| PhraseAt(v.words, query, start);
      var first := FirstPhraseExists(v.words, query, start);
      PhraseMatches(kind, v, query, first);
    }
  }

  lemma PhraseMatches(kind: Kind, v: Value, query: seq<string>, first: nat)
    requires ValuePhrase(kind, v, query) && FirstPhrase(v.words, query, first)
    ensures Matches(kind, v, query, Match(PHRASE, Whole(v.words[first..first + |query|])))
  {}

  // Every value that matches in some way has a best match.
  lemma ValueFound(subjects: seq<Subject>, selected: set<Kind>, query: seq<string>, best: Best, o: nat, i: nat)
    requires AgreesWithScan(subjects, selected, query, best) && Selects(subjects, selected, o)
    requires i < |subjects[o].values|
    requires var v := subjects[o].values[i];
             ValueExact(v, query) || ValuePrefix(v, query) || ValueWords(subjects[o].kind, v, query)
    ensures o in best && i in best[o] && IsBest(subjects[o].kind, subjects[o].values[i], query, best[o][i])
  {
    var kind, v := subjects[o].kind, subjects[o].values[i];
    var m := SomeMatch(kind, v, query);
    assert IsValue(subjects, o, i);
  }

  lemma SomeMatch(kind: Kind, v: Value, query: seq<string>) returns (m: Match)
    requires ValueExact(v, query) || ValuePrefix(v, query) || ValueWords(kind, v, query)
    ensures Matches(kind, v, query, m)
  {
    if ValueExact(v, query) {
      m := Match(EXACT, Whole(query));
    } else if ValuePrefix(v, query) {
      var t :| t in Terms(v.words) && Whole(query) <= t && t != Whole(query);
      m := Match(PREFIX, t);
    } else if start: nat :| PhraseAt(v.words, query, start) {
      var first := FirstPhraseExists(v.words, query, start);
      m := Match(PHRASE, Whole(v.words[first..first + |query|]));
    } else {
      m := Match(ALL_WORDS, Whole(FirstWithEach(v.words, query)));
    }
  }

  // A subject's best rank is at most some value's.
  lemma RankFrom(subjects: seq<Subject>, selected: set<Kind>, query: seq<string>, best: Best, o: nat, r: nat)
    returns (i: nat)
    requires AgreesWithScan(subjects, selected, query, best) && o < |subjects| && o in best && IsBestRank(best[o], r)
    ensures Selects(subjects, selected, o) && i < |subjects[o].values| && i in best[o] && best[o][i].rank == r
    ensures IsBest(subjects[o].kind, subjects[o].values[i], query, best[o][i])
  {
    i :| i in best[o] && best[o][i].rank == r;
  }

  lemma RankMeans(subjects: seq<Subject>, selected: set<Kind>, query: seq<string>, best: Best, o: nat, r: nat)
    requires AgreesWithScan(subjects, selected, query, best) && o < |subjects| && o in best && IsBestRank(best[o], r)
    ensures r <= ALL_WORDS && IsFound(subjects[o], query)
    ensures r <= EXACT <==> HasExact(subjects[o], query)
    ensures r <= PREFIX <==> HasExact(subjects[o], query) || HasPrefix(subjects[o], query)
    ensures r <= PHRASE <==>
            HasExact(subjects[o], query) || HasPrefix(subjects[o], query) || HasPhrase(subjects[o], query)
  {
    var s := subjects[o];
    var i := RankFrom(subjects, selected, query, best, o, r);
    ValueRank(s.kind, s.values[i], query, best[o][i]);
    RankFound(subjects, selected, query, best, o, i);
    if j :| 0 <= j < |s.values| && ValueExact(s.values[j], query) {
      ValueFound(subjects, selected, query, best, o, j);
      ValueRank(s.kind, s.values[j], query, best[o][j]);
    }
    if j :| 0 <= j < |s.values| && ValuePrefix(s.values[j], query) {
      ValueFound(subjects, selected, query, best, o, j);
      ValueRank(s.kind, s.values[j], query, best[o][j]);
    }
    if j :| 0 <= j < |s.values| && ValuePhrase(s.kind, s.values[j], query) {
      ValueFound(subjects, selected, query, best, o, j);
      ValueRank(s.kind, s.values[j], query, best[o][j]);
    }
  }

  lemma RankFound(subjects: seq<Subject>, selected: set<Kind>, query: seq<string>, best: Best, o: nat, i: nat)
    requires o < |subjects| && i < |subjects[o].values| && o in best && i in best[o]
    requires IsBest(subjects[o].kind, subjects[o].values[i], query, best[o][i])
    ensures IsFound(subjects[o], query)
    ensures ValueExact(subjects[o].values[i], query) ==> HasExact(subjects[o], query)
    ensures ValuePrefix(subjects[o].values[i], query) ==> HasPrefix(subjects[o], query)
    ensures ValuePhrase(subjects[o].kind, subjects[o].values[i], query) ==> HasPhrase(subjects[o], query)
  {
    KeptMatch(subjects[o].kind, subjects[o].values[i], query, best[o][i]);
  }

  // A group lists the subjects of its kind that match, best first, up to the limit; `truncated` exactly if
  // there are more.
  ghost predicate ListsBest(subjects: seq<Subject>, query: seq<string>, kind: Kind, limit: nat, g: Group) {
    && g.kind == kind && |g.listed| <= limit
    && (forall i :: 0 <= i < |g.listed| ==> IsListed(subjects, query, kind, g.listed[i].1))
    && (forall i, j :: 0 <= i < j < |g.listed| ==>
          g.listed[i].1 != g.listed[j].1
          && ComesBefore(subjects[g.listed[i].1], subjects[g.listed[j].1], query))
    && (forall o: nat :: IsListed(subjects, query, kind, o) && !IsAmong(g.listed, o) ==>
          && g.truncated && |g.listed| == limit
          && forall i :: 0 <= i < |g.listed| ==> ComesBefore(subjects[g.listed[i].1], subjects[o], query))
    && (g.truncated ==> exists o: nat :: IsListed(subjects, query, kind, o) && !IsAmong(g.listed, o))
  }

  ghost predicate IsListed(subjects: seq<Subject>, query: seq<string>, kind: Kind, o: nat) {
    o < |subjects| && subjects[o].kind == kind && IsFound(subjects[o], query)
  }

  lemma RankOrder(subjects: seq<Subject>, x: (nat, nat), y: (nat, nat))
    requires x.1 < |subjects| && y.1 < |subjects| && Leq(RankKey(subjects)(x), RankKey(subjects)(y))
    ensures x.0 <= y.0
    ensures x.0 == y.0 ==>
              var s, t := subjects[x.1], subjects[y.1];
              if s.sortLabel != t.sortLabel then TextLeq(s.sortLabel, t.sortLabel) else TextLeq(s.key, t.key)
  {
    var s, t := subjects[x.1], subjects[y.1];
    HeadOrder(Text(s.key), [], Text(t.key), []);
    assert [Text(s.key)] + [] == [Text(s.key)] && [Text(t.key)] + [] == [Text(t.key)];
    HeadOrder(Text(s.sortLabel), [Text(s.key)], Text(t.sortLabel), [Text(t.key)]);
    HeadOrder(Num(x.0), [Text(s.sortLabel)] + [Text(s.key)], Num(y.0), [Text(t.sortLabel)] + [Text(t.key)]);
    assert RankKey(subjects)(x).items == [Num(x.0)] + ([Text(s.sortLabel)] + [Text(s.key)]);
    assert RankKey(subjects)(y).items == [Num(y.0)] + ([Text(t.sortLabel)] + [Text(t.key)]);
    TextTotal(s.key, s.key);
  }

  lemma {:induction false} BestRankFrom(matches: map<nat, Match>, v: nat) returns (r: nat)
    requires v in matches
    ensures IsBestRank(matches, r)
    decreases matches[v].rank
  {
    if w :| w in matches && matches[w].rank < matches[v].rank {
      r := BestRankFrom(matches, w);
    } else {
      r := matches[v].rank;
    }
  }

  // Of two subjects, the one with the lower rank, or with the same and listed before by label and key.
  lemma RankedBefore(subjects: seq<Subject>, selected: set<Kind>, query: seq<string>, best: Best, x: (nat, nat),
                     y: (nat, nat))
    requires AgreesWithScan(subjects, selected, query, best)
    requires x.1 < |subjects| && x.1 in best && IsBestRank(best[x.1], x.0)
    requires y.1 < |subjects| && y.1 in best && IsBestRank(best[y.1], y.0)
    requires Leq(RankKey(subjects)(x), RankKey(subjects)(y))
    ensures ComesBefore(subjects[x.1], subjects[y.1], query)
  {
    RankMeans(subjects, selected, query, best, x.1, x.0);
    RankMeans(subjects, selected, query, best, y.1, y.0);
    RankOrder(subjects, x, y);
  }

  lemma FoundIsRanked(subjects: seq<Subject>, selected: set<Kind>, query: seq<string>, best: Best, kind: Kind,
                      ordered: Ranking, o: nat)
    returns (r: nat)
    requires AgreesWithScan(subjects, selected, query, best) && Ranks(subjects, best, kind, ordered)
    requires kind in selected && IsListed(subjects, query, kind, o)
    ensures (r, o) in ordered
  {
    var s := subjects[o];
    var i :| 0 <= i < |s.values|
      && (ValueExact(s.values[i], query) || ValuePrefix(s.values[i], query) || ValueWords(s.kind, s.values[i], query));
    ValueFound(subjects, selected, query, best, o, i);
    r := BestRankFrom(best[o], i);
  }

  ghost predicate AllRanked(subjects: seq<Subject>, best: Best, kind: Kind, ordered: Ranking) {
    forall i :: 0 <= i < |ordered| ==>
        && ordered[i].1 < |subjects| && ordered[i].1 in best && subjects[ordered[i].1].kind == kind
        && IsBestRank(best[ordered[i].1], ordered[i].0)
  }

  lemma RanksAll(subjects: seq<Subject>, best: Best, kind: Kind, ordered: Ranking)
    requires Ranks(subjects, best, kind, ordered)
    ensures AllRanked(subjects, best, kind, ordered)
    ensures forall i, j :: 0 <= i < j < |ordered| ==> ordered[i].1 != ordered[j].1
  {
    forall i | 0 <= i < |ordered|
      ensures ordered[i].1 < |subjects| && ordered[i].1 in best && subjects[ordered[i].1].kind == kind
      ensures IsBestRank(best[ordered[i].1], ordered[i].0)
    {
      assert (ordered[i].0, ordered[i].1) in ordered by { assert ordered[i] == (ordered[i].0, ordered[i].1); }
    }
  }

  // Everything that matches, in order.
  ghost predicate InBestOrder(subjects: seq<Subject>, query: seq<string>, kind: Kind, ordered: Ranking) {
    && (forall i :: 0 <= i < |ordered| ==> IsListed(subjects, query, kind, ordered[i].1))
    && (forall i, j :: 0 <= i < j < |ordered| ==>
          ordered[i].1 != ordered[j].1 && ComesBefore(subjects[ordered[i].1], subjects[ordered[j].1], query))
    && (forall o: nat :: IsListed(subjects, query, kind, o) ==> exists i :: 0 <= i < |ordered| && ordered[i].1 == o)
  }

  lemma OrderedBest(subjects: seq<Subject>, selected: set<Kind>, query: seq<string>, best: Best, kind: Kind,
                    ordered: Ranking)
    requires AgreesWithScan(subjects, selected, query, best) && kind in selected
    requires Ascending(ordered, RankKey(subjects)) && Ranks(subjects, best, kind, ordered)
    ensures InBestOrder(subjects, query, kind, ordered)
  {
    RanksAll(subjects, best, kind, ordered);
    forall i | 0 <= i < |ordered| ensures IsListed(subjects, query, kind, ordered[i].1) {
      RankMeans(subjects, selected, query, best, ordered[i].1, ordered[i].0);
    }
    forall i, j | 0 <= i < j < |ordered| ensures ComesBefore(subjects[ordered[i].1], subjects[ordered[j].1], query) {
      RankedBefore(subjects, selected, query, best, ordered[i], ordered[j]);
    }
    forall o: nat | IsListed(subjects, query, kind, o) ensures exists i :: 0 <= i < |ordered| && ordered[i].1 == o {
      var r := FoundIsRanked(subjects, selected, query, best, kind, ordered, o);
      var i :| 0 <= i < |ordered| && ordered[i] == (r, o);
    }
  }

  ghost predicate IsAmong(listed: Ranking, o: nat) { exists i :: 0 <= i < |listed| && listed[i].1 == o }

  lemma OthersLater(subjects: seq<Subject>, query: seq<string>, kind: Kind, ordered: Ranking, count: nat, o: nat)
    requires InBestOrder(subjects, query, kind, ordered) && count <= |ordered|
    requires IsListed(subjects, query, kind, o) && !IsAmong(ordered[..count], o)
    ensures count < |ordered|
    ensures forall i :: 0 <= i < count ==> ComesBefore(subjects[ordered[i].1], subjects[o], query)
  {
    var k :| 0 <= k < |ordered| && ordered[k].1 == o;
  }

  lemma NextIsLeftOut(subjects: seq<Subject>, query: seq<string>, kind: Kind, ordered: Ranking, count: nat)
    requires InBestOrder(subjects, query, kind, ordered) && count < |ordered|
    ensures IsListed(subjects, query, kind, ordered[count].1) && !IsAmong(ordered[..count], ordered[count].1)
  {}

  lemma FirstListed(subjects: seq<Subject>, query: seq<string>, kind: Kind, limit: nat, ordered: Ranking, g: Group)
    requires InBestOrder(subjects, query, kind, ordered) && g.kind == kind && (g.truncated <==> |ordered| > limit)
    requires g.listed == if limit < |ordered| then ordered[..limit] else ordered
    ensures ListsBest(subjects, query, kind, limit, g)
  {
    var count := |g.listed|;
    assert g.listed == ordered[..count];
    forall o: nat | IsListed(subjects, query, kind, o) && !IsAmong(g.listed, o)
      ensures g.truncated && |g.listed| == limit
      ensures forall i :: 0 <= i < |g.listed| ==> ComesBefore(subjects[g.listed[i].1], subjects[o], query)
    {
      OthersLater(subjects, query, kind, ordered, count, o);
    }
    if g.truncated { NextIsLeftOut(subjects, query, kind, ordered, count); }
  }

  lemma GroupListsBest(subjects: seq<Subject>, selected: set<Kind>, query: seq<string>, best: Best, kind: Kind,
                       limit: nat, g: Group)
    requires AgreesWithScan(subjects, selected, query, best) && kind in selected
    requires GroupFits(subjects, best, limit, kind, g)
    ensures ListsBest(subjects, query, kind, limit, g)
  {
    var ordered :|
      && Ascending(ordered, RankKey(subjects)) && Ranks(subjects, best, kind, ordered)
      && g.listed == (if limit < |ordered| then ordered[..limit] else ordered)
      && (g.truncated <==> |ordered| > limit);
    OrderedBest(subjects, selected, query, best, kind, ordered);
    FirstListed(subjects, query, kind, limit, ordered, g);
  }

  // Columns, datasets, entity definitions, identities.
  predicate KindBefore(k: Kind, l: Kind) {
    match k
    case ColumnKind => l != ColumnKind
    case DatasetKind => l == DefinitionKind || l == IdentityKind
    case DefinitionKind => l == IdentityKind
    case IdentityKind => false
  }

  lemma {:induction false} SelectedAmong(kinds: Option<set<Kind>>, from: seq<Kind>)
    requires forall i, j :: 0 <= i < j < |from| ==> KindBefore(from[i], from[j])
    ensures var selected := SelectedKinds(kinds, from);
            && (forall k :: k in selected <==> k in from && (kinds.None? || k in kinds.value))
            && (forall i, j :: 0 <= i < j < |selected| ==> KindBefore(selected[i], selected[j]))
  {
    if from == [] {
    } else {
      var init, last := from[..|from| - 1], from[|from| - 1];
      SelectedAmong(kinds, init);
      assert from == init + [last];
      var before := SelectedKinds(kinds, init);
      forall i | 0 <= i < |before| ensures KindBefore(before[i], last) {
        assert before[i] in init;
        var j :| 0 <= j < |init| && init[j] == before[i];
        assert from[j] == init[j];
      }
      var selected := SelectedKinds(kinds, from);
      assert selected == if kinds.None? || last in kinds.value then before + [last] else before;
      forall i, j | 0 <= i < j < |selected| ensures KindBefore(selected[i], selected[j]) {
        if j < |before| {
          assert selected[i] == before[i] && selected[j] == before[j];
        } else {
          assert selected[i] == before[i] && selected[j] == last;
        }
      }
    }
  }

  ghost predicate HasGroup(groups: seq<Group>, kind: Kind) {
    exists i :: 0 <= i < |groups| && groups[i].kind == kind
  }

  // One group for every kind asked for, in their order.
  ghost predicate OneGroupEach(kinds: Option<set<Kind>>, groups: seq<Group>) {
    && (forall k :: HasGroup(groups, k) <==> kinds.None? || k in kinds.value)
    && (forall i, j :: 0 <= i < j < |groups| ==> KindBefore(groups[i].kind, groups[j].kind))
  }

  lemma SameKinds(subjects: seq<Subject>, best: Best, limit: nat, selected: seq<Kind>, groups: seq<Group>)
    requires AllGrouped(subjects, best, limit, selected, groups)
    ensures |groups| == |selected| && forall i :: 0 <= i < |groups| ==> groups[i].kind == selected[i]
  {
    forall i | 0 <= i < |groups| ensures groups[i].kind == selected[i] {
      assert GroupFits(subjects, best, limit, selected[i], groups[i]);
    }
  }

  lemma EveryKind(k: Kind)
    ensures k in SEARCH_KINDS
  {
    assert SEARCH_KINDS[0] == ColumnKind && SEARCH_KINDS[1] == DatasetKind && SEARCH_KINDS[2] == DefinitionKind;
    assert SEARCH_KINDS[3] == IdentityKind;
  }

  lemma GroupsOfKinds(subjects: seq<Subject>, best: Best, limit: nat, kinds: Option<set<Kind>>, groups: seq<Group>)
    requires AllGrouped(subjects, best, limit, SelectedKinds(kinds, SEARCH_KINDS), groups)
    ensures OneGroupEach(kinds, groups)
  {
    var selected := SelectedKinds(kinds, SEARCH_KINDS);
    SelectedAmong(kinds, SEARCH_KINDS);
    SameKinds(subjects, best, limit, selected, groups);
    forall k ensures HasGroup(groups, k) <==> kinds.None? || k in kinds.value {
      EveryKind(k);
      if k in selected {
        var i :| 0 <= i < |selected| && selected[i] == k;
        assert groups[i].kind == k;
      }
    }
  }

  lemma AllListBest(subjects: seq<Subject>, query: seq<string>, best: Best, limit: nat, selected: seq<Kind>,
                    groups: seq<Group>)
    requires FoundByScan(subjects, selected, query, best) && AllGrouped(subjects, best, limit, selected, groups)
    ensures query != [] ==> forall i :: 0 <= i < |groups| ==>
              ListsBest(subjects, query, groups[i].kind, limit, groups[i])
    ensures query == [] ==> forall i :: 0 <= i < |groups| ==> groups[i].listed == [] && !groups[i].truncated
  {
    forall i | 0 <= i < |groups|
      ensures query != [] ==> ListsBest(subjects, query, groups[i].kind, limit, groups[i])
      ensures query == [] ==> groups[i].listed == [] && !groups[i].truncated
    {
      assert GroupFits(subjects, best, limit, selected[i], groups[i]);
      if query != [] {
        GroupListsBest(subjects, (set k | k in selected), query, best, selected[i], limit, groups[i]);
      } else {
        NothingRanked(subjects, best, limit, selected[i], groups[i]);
      }
    }
  }

  lemma SomeFound(subjects: seq<Subject>, best: Best, kind: Kind, ordered: Ranking)
    requires Ranks(subjects, best, kind, ordered) && ordered != []
    ensures best != map[]
  {
    RanksAll(subjects, best, kind, ordered);
    assert ordered[0].1 in best;
  }

  lemma NothingRanked(subjects: seq<Subject>, best: Best, limit: nat, kind: Kind, g: Group)
    requires best == map[] && GroupFits(subjects, best, limit, kind, g)
    ensures g.listed == [] && !g.truncated
  {
    var ordered: Ranking :|
      && Ascending(ordered, RankKey(subjects)) && Ranks(subjects, best, kind, ordered)
      && g.listed == (if limit < |ordered| then ordered[..limit] else ordered)
      && (g.truncated <==> |ordered| > limit);
    if ordered != [] { SomeFound(subjects, best, kind, ordered); }
  }

  // `search`: one group for every selected kind.
  method Search(subjects: seq<Subject>, entries: set<Entry>, query: seq<string>, limit: nat, kinds: Option<set<Kind>>)
    returns (groups: seq<Group>, truncated: bool)
    requires Indexed(subjects, entries) && ValidSubjects(subjects) && AreWords(query)
    ensures exists best ::
              && FoundByScan(subjects, SelectedKinds(kinds, SEARCH_KINDS), query, best)
              && AllGrouped(subjects, best, limit, SelectedKinds(kinds, SEARCH_KINDS), groups)
    ensures OneGroupEach(kinds, groups)
    ensures query != [] ==> forall i :: 0 <= i < |groups| ==>
              ListsBest(subjects, query, groups[i].kind, limit, groups[i])
    ensures query == [] ==> forall i :: 0 <= i < |groups| ==> groups[i].listed == [] && !groups[i].truncated
    ensures truncated <==> AnyTruncated(groups)
  {
    var selected := SelectedKinds(kinds, SEARCH_KINDS);
    var best: Best := map[];
    if query != [] {
      best := FindBest(subjects, entries, (set k | k in selected), query);
    }
    assert FoundByScan(subjects, selected, query, best);
    groups, truncated := GroupEach(subjects, best, limit, selected);
    GroupsOfKinds(subjects, best, limit, kinds, groups);
    AllListBest(subjects, query, best, limit, selected, groups);
  }
}
