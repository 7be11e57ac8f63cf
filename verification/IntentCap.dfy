/** Capping the recognized intents of all sub-questions (agent_service/rag/intent_resolver.py). */
module IntentCap {

  import opened Text

  datatype NodeScore = NodeScore(node: string, score: real)

  datatype SubIntent = SubIntent(question: string, scores: seq<NodeScore>)

  /** A scored node together with the position of its sub-question. */
  datatype Candidate = Candidate(index: nat, item: NodeScore)

  // ---- Collecting and ordering ----

  function Tagged(index: nat, scores: seq<NodeScore>): (r: seq<Candidate>)
    ensures |r| == |scores|
    ensures forall k | 0 <= k < |r| :: r[k] == Candidate(index, scores[k])
  {
    if scores == [] then [] else Tagged(index, scores[..|scores| - 1]) + [Candidate(index, scores[|scores| - 1])]
  }

  /** All candidates, sub-question by sub-question. */
  function Flat(subs: seq<SubIntent>): seq<Candidate> {
    if subs == [] then []
    else Flat(subs[..|subs| - 1]) + Tagged(|subs| - 1, subs[|subs| - 1].scores)
  }

  predicate Descending(cs: seq<Candidate>) {
    forall i, j | 0 <= i < j < |cs| :: cs[i].item.score >= cs[j].item.score
  }

  function InsertByScore(c: Candidate, cs: seq<Candidate>): seq<Candidate> {
    if cs == [] then [c]
    else if cs[0].item.score >= c.item.score then [cs[0]] + InsertByScore(c, cs[1..])
    else [c] + cs
  }

  /** The stable sort by descending score. */
  function ByScore(cs: seq<Candidate>): seq<Candidate> {
    if cs == [] then [] else InsertByScore(cs[|cs| - 1], ByScore(cs[..|cs| - 1]))
  }

  lemma {:induction false} InsertKeeps(c: Candidate, cs: seq<Candidate>)
    ensures multiset(InsertByScore(c, cs)) == multiset(cs) + multiset{c}
  {
    if cs != [] && cs[0].item.score >= c.item.score {
      InsertKeeps(c, cs[1..]);
      CountFirst(cs[0], cs[1..]);
      CountFirst(cs[0], InsertByScore(c, cs[1..]));
      assert cs == [cs[0]] + cs[1..];
    } else {
      CountFirst(c, cs);
    }
  }

  lemma CountFirst(c: Candidate, cs: seq<Candidate>)
    ensures multiset([c] + cs) == multiset{c} + multiset(cs)
  {}

  lemma {:induction false} InsertSorts(c: Candidate, cs: seq<Candidate>)
    requires Descending(cs)
    ensures Descending(InsertByScore(c, cs))
  {
    if cs != [] && cs[0].item.score >= c.item.score {
      InsertSorts(c, cs[1..]);
      InsertKeeps(c, cs[1..]);
      var r := InsertByScore(c, cs[1..]);
      forall j | 0 <= j < |r|
        ensures cs[0].item.score >= r[j].item.score
      {
        assert r[j] in multiset(r);
        assert r[j] == c || r[j] in cs[1..];
      }
    }
  }

  lemma {:induction false} ByScoreSorts(cs: seq<Candidate>)
    ensures Descending(ByScore(cs)) && multiset(ByScore(cs)) == multiset(cs)
  {
    if cs != [] {
      var n := |cs| - 1;
      ByScoreSorts(cs[..n]);
      InsertKeeps(cs[n], ByScore(cs[..n]));
      InsertSorts(cs[n], ByScore(cs[..n]));
      assert cs == cs[..n] + [cs[n]];
    }
  }

  method CollectCandidates(subs: seq<SubIntent>) returns (candidates: seq<Candidate>)
    ensures candidates == ByScore(Flat(subs))
  {
    candidates := [];
    for i := 0 to |subs|
      invariant candidates == Flat(subs[..i])
    {
      ghost var before := candidates;
      var scores := subs[i].scores;
      for k := 0 to |scores|
        invariant candidates == before + Tagged(i, scores[..k])
      {
        assert scores[..k + 1][..k] == scores[..k];
        candidates := candidates + [Candidate(i, scores[k])];
      }
      assert scores[..|scores|] == scores;
      assert subs[..i + 1][..i] == subs[..i];
    }
    assert subs[..|subs|] == subs;
    candidates := ByScore(candidates);
  }

  // ---- Selecting ----

  predicate HasIndex(cs: seq<Candidate>, index: nat) {
    exists k | 0 <= k < |cs| :: cs[k].index == index
  }

  /** The first candidate of each sub-question, in the given order. */
  function Tops(cs: seq<Candidate>): seq<Candidate> {
    if cs == [] then []
    else
      var init, c := cs[..|cs| - 1], cs[|cs| - 1];
      Tops(init) + if HasIndex(init, c.index) then [] else [c]
  }

  ghost predicate IndicesBelow(cs: seq<Candidate>, n: nat) {
    forall c | c in cs :: c.index < n
  }

  method SelectTopPerSubQuestion(candidates: seq<Candidate>, count: nat) returns (selected: seq<Candidate>)
    requires IndicesBelow(candidates, count)
    ensures selected == Tops(candidates)
  {
    var flags := seq(count, _ => false);
    selected := [];
    for i := 0 to |candidates|
      invariant |flags| == count
      invariant selected == Tops(candidates[..i])
      invariant forall x | 0 <= x < count :: flags[x] == HasIndex(candidates[..i], x)
    {
      var candidate := candidates[i];
      var index := candidate.index;
      FlagsAfter(candidates, i, count, flags);
      if flags[index] {
        continue;
      }
      flags := flags[index := true];
      selected := selected + [candidate];
      if |selected| == count {
        NothingMore(candidates, i + 1, count);
        return;
      }
    }
    assert candidates[..|candidates|] == candidates;
  }

  lemma FlagsAfter(cs: seq<Candidate>, i: nat, count: nat, flags: seq<bool>)
    requires i < |cs| && |flags| == count
    requires forall x | 0 <= x < count :: flags[x] == HasIndex(cs[..i], x)
    ensures forall x | 0 <= x < count :: HasIndex(cs[..i + 1], x) == (flags[x] || x == cs[i].index)
    ensures Tops(cs[..i + 1]) == Tops(cs[..i]) + if HasIndex(cs[..i], cs[i].index) then [] else [cs[i]]
  {
    var more := cs[..i + 1];
    assert more[..i] == cs[..i];
    forall x: nat
      ensures HasIndex(more, x) == (HasIndex(cs[..i], x) || x == cs[i].index)
    {
      if HasIndex(cs[..i], x) {
        var k :| 0 <= k < i && cs[..i][k].index == x;
        assert more[k].index == x;
      }
      assert more[i] == cs[i];
    }
  }

  /** Exactly the sub-questions that occur are represented among the tops, once each. */
  lemma {:induction false} TopsAreFirsts(cs: seq<Candidate>)
    ensures forall t | t in Tops(cs) :: t in cs
    ensures forall x: nat :: HasIndex(Tops(cs), x) <==> HasIndex(cs, x)
    ensures forall i, j | 0 <= i < j < |Tops(cs)| :: Tops(cs)[i].index != Tops(cs)[j].index
  {
    if cs != [] {
      var n := |cs| - 1;
      var init, tops := cs[..n], Tops(cs[..n]);
      TopsAreFirsts(init);
      forall x: nat
        ensures HasIndex(cs, x) <==> HasIndex(init, x) || x == cs[n].index
      {
        if HasIndex(init, x) {
          var k :| 0 <= k < n && init[k].index == x;
          assert cs[k].index == x;
        }
      }
      if HasIndex(init, cs[n].index) {
        assert Tops(cs) == tops + [] == tops;
      } else {
        var more := tops + [cs[n]];
        forall x: nat
          ensures HasIndex(more, x) <==> HasIndex(tops, x) || x == cs[n].index
        {
          if HasIndex(tops, x) {
            var k :| 0 <= k < |tops| && tops[k].index == x;
            assert more[k].index == x;
          }
          assert more[|tops|] == cs[n];
        }
        assert Tops(cs) == more;
      }
    }
  }

  ghost function Indices(cs: seq<Candidate>): set<nat> {
    set c | c in cs :: c.index
  }

  lemma {:induction false} DistinctIndices(cs: seq<Candidate>)
    requires forall i, j | 0 <= i < j < |cs| :: cs[i].index != cs[j].index
    ensures |Indices(cs)| == |cs|
  {
    if cs != [] {
      var n := |cs| - 1;
      DistinctIndices(cs[..n]);
      assert cs == cs[..n] + [cs[n]];
      assert Indices(cs) == Indices(cs[..n]) + {cs[n].index};
      assert cs[n].index !in Indices(cs[..n]);
    }
  }

  ghost function Below(n: nat): (s: set<nat>)
    ensures forall x: nat :: x in s <==> x < n
    ensures |s| == n
  {
    if n == 0 then {} else Below(n - 1) + {n - 1}
  }

  lemma FullSubset<T>(a: set<T>, b: set<T>)
    requires a <= b && |a| == |b|
    ensures a == b
  {
    assert b == a + (b - a);
  }

  /** Once every sub-question is represented, the rest of the candidates adds no top. */
  lemma NothingMore(cs: seq<Candidate>, i: nat, count: nat)
    requires i <= |cs| && IndicesBelow(cs, count) && |Tops(cs[..i])| == count
    ensures Tops(cs[..i]) == Tops(cs)
    decreases |cs| - i
  {
    if i < |cs| {
      AllRepresented(cs, i, count);
      assert cs[..i + 1][..i] == cs[..i];
      NothingMore(cs, i + 1, count);
    } else {
      assert cs[..i] == cs;
    }
  }

  lemma {:induction false} TopsPerIndex(cs: seq<Candidate>)
    ensures |Tops(cs)| == |Indices(cs)|
  {
    if cs != [] {
      var n := |cs| - 1;
      TopsPerIndex(cs[..n]);
      assert cs == cs[..n] + [cs[n]];
      assert Indices(cs) == Indices(cs[..n]) + {cs[n].index};
      IndexIsListed(cs[..n], cs[n].index);
    }
  }

  lemma IndexIsListed(cs: seq<Candidate>, index: nat)
    ensures HasIndex(cs, index) <==> index in Indices(cs)
  {
    if index in Indices(cs) {
      var c :| c in cs && c.index == index;
    }
  }

  lemma AllRepresented(cs: seq<Candidate>, i: nat, count: nat)
    requires i < |cs| && IndicesBelow(cs, count) && |Tops(cs[..i])| == count
    ensures HasIndex(cs[..i], cs[i].index)
  {
    TopsPerIndex(cs[..i]);
    IndicesAreBelow(cs, i, count);
    FullSubset(Indices(cs[..i]), Below(count));
    assert cs[i] in cs;
    IndexIsListed(cs[..i], cs[i].index);
  }

  lemma IndicesAreBelow(cs: seq<Candidate>, i: nat, count: nat)
    requires i <= |cs| && IndicesBelow(cs, count)
    ensures Indices(cs[..i]) <= Below(count)
  {
    forall c | c in cs[..i]
      ensures c in cs
    {}
  }

  function Key(c: Candidate): (nat, string) {
    (c.index, c.item.node)
  }

  predicate HasKey(cs: seq<Candidate>, key: (nat, string)) {
    exists k | 0 <= k < |cs| :: Key(cs[k]) == key
  }

  /** The candidates whose key is not taken yet, in order. */
  function Rest(cs: seq<Candidate>, taken: seq<Candidate>): seq<Candidate> {
    if cs == [] then []
    else Rest(cs[..|cs| - 1], taken) + if HasKey(taken, Key(cs[|cs| - 1])) then [] else [cs[|cs| - 1]]
  }

  function Take(cs: seq<Candidate>, n: int): seq<Candidate> {
    if n <= 0 then [] else if |cs| <= n then cs else cs[..n]
  }

  method SelectAdditional(candidates: seq<Candidate>, selected: seq<Candidate>, remaining: int)
    returns (additional: seq<Candidate>)
    ensures additional == Take(Rest(candidates, selected), remaining)
  {
    if remaining <= 0 {
      return [];
    }
    var selectedIds := set c | c in selected :: Key(c);
    additional := [];
    for i := 0 to |candidates|
      invariant additional == Rest(candidates[..i], selected) && |additional| < remaining
    {
      assert candidates[..i + 1][..i] == candidates[..i];
      KeysAsSet(selected, Key(candidates[i]));
      if Key(candidates[i]) in selectedIds {
        continue;
      }
      additional := additional + [candidates[i]];
      if |additional| >= remaining {
        RestPrefix(candidates, selected, i + 1);
        return;
      }
    }
    assert candidates[..|candidates|] == candidates;
  }

  lemma KeysAsSet(cs: seq<Candidate>, key: (nat, string))
    ensures HasKey(cs, key) <==> key in (set c | c in cs :: Key(c))
  {
    if key in (set c | c in cs :: Key(c)) {
      var c :| c in cs && Key(c) == key;
      var k :| 0 <= k < |cs| && cs[k] == c;
      assert Key(cs[k]) == key;
    }
  }

  lemma {:induction false} RestPrefix(cs: seq<Candidate>, taken: seq<Candidate>, i: nat)
    requires i <= |cs|
    ensures Rest(cs[..i], taken) <= Rest(cs, taken)
    decreases |cs|
  {
    if i < |cs| {
      RestPrefix(cs[..|cs| - 1], taken, i);
      assert cs[..|cs| - 1][..i] == cs[..i];
    } else {
      assert cs[..i] == cs;
    }
  }

  // ---- Rebuilding ----

  function Group(cs: seq<Candidate>, index: nat): seq<Candidate> {
    if cs == [] then []
    else Group(cs[..|cs| - 1], index) + if cs[|cs| - 1].index == index then [cs[|cs| - 1]] else []
  }

  function Untagged(cs: seq<Candidate>): (r: seq<NodeScore>)
    ensures |r| == |cs|
    ensures forall k | 0 <= k < |r| :: r[k] == cs[k].item
  {
    if cs == [] then [] else Untagged(cs[..|cs| - 1]) + [cs[|cs| - 1].item]
  }

  /** The sub-questions with the selected scores only, each in descending order. */
  function Rebuilt(subs: seq<SubIntent>, selected: seq<Candidate>): (r: seq<SubIntent>)
    ensures |r| == |subs|
  {
    if subs == [] then []
    else
      var n := |subs| - 1;
      Rebuilt(subs[..n], selected) + [SubIntent(subs[n].question, Untagged(ByScore(Group(selected, n))))]
  }

  lemma {:induction false} RebuiltAt(subs: seq<SubIntent>, selected: seq<Candidate>, i: nat)
    requires i < |subs|
    ensures Rebuilt(subs, selected)[i] == SubIntent(subs[i].question, Untagged(ByScore(Group(selected, i))))
  {
    if i < |subs| - 1 {
      RebuiltAt(subs[..|subs| - 1], selected, i);
    }
  }

  function Lookup(grouped: map<nat, seq<Candidate>>, i: nat): seq<Candidate> {
    if i in grouped then grouped[i] else []
  }

  /** The source's `grouped` dictionary; entries keep their tag until the scores are stripped. */
  method GroupByIndex(selected: seq<Candidate>) returns (grouped: map<nat, seq<Candidate>>)
    ensures forall i: nat :: Lookup(grouped, i) == Group(selected, i)
  {
    grouped := map[];
    for k := 0 to |selected|
      invariant forall i: nat :: Lookup(grouped, i) == Group(selected[..k], i)
    {
      var c := selected[k];
      assert selected[..k + 1][..k] == selected[..k];
      grouped := grouped[c.index := Lookup(grouped, c.index) + [c]];
    }
    assert selected[..|selected|] == selected;
  }

  method RebuildSubIntents(original: seq<SubIntent>, selected: seq<Candidate>) returns (rebuilt: seq<SubIntent>)
    ensures rebuilt == Rebuilt(original, selected)
  {
    var grouped := GroupByIndex(selected);
    rebuilt := [];
    for i := 0 to |original|
      invariant rebuilt == Rebuilt(original[..i], selected)
    {
      var scores := Untagged(ByScore(Lookup(grouped, i)));
      assert original[..i + 1][..i] == original[..i];
      rebuilt := rebuilt + [SubIntent(original[i].question, scores)];
    }
    assert original[..|original|] == original;
  }

  /** Guaranteed tops first, then the best of the rest up to the cap. */
  function Selection(candidates: seq<Candidate>, cap: int): seq<Candidate> {
    Tops(candidates) + Take(Rest(candidates, Tops(candidates)), cap - |Tops(candidates)|)
  }

  function Capped(subs: seq<SubIntent>, cap: int): seq<SubIntent> {
    if |Flat(subs)| <= cap then subs else Rebuilt(subs, Selection(ByScore(Flat(subs)), cap))
  }

  method CountAll(subs: seq<SubIntent>) returns (total: nat)
    ensures total == |Flat(subs)|
  {
    total := 0;
    for i := 0 to |subs|
      invariant total == |Flat(subs[..i])|
    {
      total := total + |subs[i].scores|;
      assert subs[..i + 1][..i] == subs[..i];
    }
    assert subs[..|subs|] == subs;
  }

  method CapTotalIntents(subs: seq<SubIntent>, cap: int) returns (result: seq<SubIntent>)
    ensures result == Capped(subs, cap)
  {
    var total := CountAll(subs);
    if total <= cap {
      return subs;
    }
    var candidates := CollectCandidates(subs);
    SortedIndices(subs);
    var selected := Select(candidates, |subs|, cap);
    result := RebuildSubIntents(subs, selected);
  }

  method Select(candidates: seq<Candidate>, count: nat, cap: int) returns (selected: seq<Candidate>)
    requires IndicesBelow(candidates, count)
    ensures selected == Selection(candidates, cap)
  {
    var guaranteed := SelectTopPerSubQuestion(candidates, count);
    var remaining := cap - |guaranteed|;
    var additional := SelectAdditional(candidates, guaranteed, remaining);
    selected := guaranteed + additional;
  }

  lemma SortedIndices(subs: seq<SubIntent>)
    ensures IndicesBelow(ByScore(Flat(subs)), |subs|)
  {
    ByScoreSorts(Flat(subs));
    FlatIndices(subs);
    SameElements(ByScore(Flat(subs)), Flat(subs));
  }

  lemma SameElements(a: seq<Candidate>, b: seq<Candidate>)
    requires multiset(a) == multiset(b)
    ensures forall c :: c in a <==> c in b
    ensures |a| == |b|
  {
    forall c
      ensures c in a <==> c in b
    {
      assert c in a <==> c in multiset(a);
      assert c in b <==> c in multiset(b);
    }
    assert |multiset(a)| == |a| && |multiset(b)| == |b|;
  }

  lemma {:induction false} FlatIndices(subs: seq<SubIntent>)
    ensures IndicesBelow(Flat(subs), |subs|)
    ensures forall c | c in Flat(subs) :: c.item in subs[c.index].scores
    ensures forall i, x | 0 <= i < |subs| && x in subs[i].scores :: Candidate(i, x) in Flat(subs)
  {
    forall c: Candidate
      ensures c in Flat(subs) <==> c.index < |subs| && c.item in subs[c.index].scores
    {
      FlatContains(subs, c);
    }
  }

  lemma {:induction false} FlatContains(subs: seq<SubIntent>, c: Candidate)
    ensures c in Flat(subs) <==> c.index < |subs| && c.item in subs[c.index].scores
  {
    if subs != [] {
      var n := |subs| - 1;
      FlatContains(subs[..n], c);
      TaggedContains(n, subs[n].scores, c);
    }
  }

  lemma TaggedContains(index: nat, scores: seq<NodeScore>, c: Candidate)
    ensures c in Tagged(index, scores) <==> c.index == index && c.item in scores
  {
    var tagged := Tagged(index, scores);
    if c in tagged {
      var k :| 0 <= k < |tagged| && tagged[k] == c;
      assert scores[k] == c.item;
    }
    if c.index == index && c.item in scores {
      var k :| 0 <= k < |scores| && scores[k] == c.item;
      assert tagged[k] == c;
    }
  }

  // ---- Sums over sets of candidates ----

  ghost predicate Distinct(cs: seq<Candidate>) {
    forall i, j | 0 <= i < j < |cs| :: cs[i] != cs[j]
  }

  ghost function Elements(cs: seq<Candidate>): set<Candidate> {
    set c | c in cs
  }

  /** The total score of a list. */
  function Score(cs: seq<Candidate>): real {
    if cs == [] then 0.0 else Score(cs[..|cs| - 1]) + cs[|cs| - 1].item.score
  }

  /** The total score of those candidates of `cs` that are in `chosen`. */
  ghost function ScoreOf(cs: seq<Candidate>, chosen: set<Candidate>): real {
    if cs == [] then 0.0
    else
      var c := cs[|cs| - 1];
      ScoreOf(cs[..|cs| - 1], chosen) + if c in chosen then c.item.score else 0.0
  }

  lemma {:induction false} AddToChosen(cs: seq<Candidate>, chosen: set<Candidate>, x: Candidate)
    requires Distinct(cs) && x !in chosen
    ensures ScoreOf(cs, chosen + {x}) == ScoreOf(cs, chosen) + if x in cs then x.item.score else 0.0
  {
    if cs != [] {
      var n := |cs| - 1;
      AddToChosen(cs[..n], chosen, x);
      assert x in cs <==> x in cs[..n] || x == cs[n];
    }
  }

  lemma {:induction false} NothingChosen(cs: seq<Candidate>)
    ensures ScoreOf(cs, {}) == 0.0
  {
    if cs != [] {
      NothingChosen(cs[..|cs| - 1]);
    }
  }

  /** A list without repetition scores what the set of its elements scores. */
  lemma {:induction false} ListScore(cs: seq<Candidate>, list: seq<Candidate>)
    requires Distinct(cs) && Distinct(list) && forall c | c in list :: c in cs
    ensures Score(list) == ScoreOf(cs, Elements(list)) && |Elements(list)| == |list|
  {
    if list == [] {
      NothingChosen(cs);
      assert Elements(list) == {};
    } else {
      var n := |list| - 1;
      ListScore(cs, list[..n]);
      assert Elements(list) == Elements(list[..n]) + {list[n]};
      AddToChosen(cs, Elements(list[..n]), list[n]);
    }
  }

  /** Exchanging one chosen candidate for another. */
  lemma Exchange(cs: seq<Candidate>, chosen: set<Candidate>, drop: Candidate, add: Candidate)
    requires Distinct(cs) && drop in chosen && add !in chosen && drop in cs && add in cs
    ensures ScoreOf(cs, chosen - {drop} + {add}) == ScoreOf(cs, chosen) - drop.item.score + add.item.score
    ensures |chosen - {drop} + {add}| == |chosen|
  {
    var kept := chosen - {drop};
    assert chosen == kept + {drop};
    AddToChosen(cs, kept, drop);
    AddToChosen(cs, kept, add);
  }

  // ---- Optimality ----

  /** `top` holds, for its sub-question, a candidate at least as good as any other. */
  ghost predicate Represents(cs: seq<Candidate>, tops: set<Candidate>) {
    && (forall t | t in tops :: t in cs)
    && (forall t, c | t in tops && c in cs && c.index == t.index :: t.item.score >= c.item.score)
    && (forall t, u | t in tops && u in tops && t.index == u.index :: t == u)
  }

  ghost predicate Covers(chosen: set<Candidate>, tops: set<Candidate>) {
    forall t | t in tops :: exists c :: c in chosen && c.index == t.index
  }

  lemma StillCovers(chosen: set<Candidate>, tops: set<Candidate>, drop: Candidate, add: Candidate)
    requires Covers(chosen, tops) && drop.index == add.index
    ensures Covers(chosen - {drop} + {add}, tops)
  {
    var next := chosen - {drop} + {add};
    forall u | u in tops
      ensures exists d :: d in next && d.index == u.index
    {
      var d :| d in chosen && d.index == u.index;
      assert d == drop || d in next;
      assert add in next;
    }
  }

  lemma StillWithin(cs: seq<Candidate>, chosen: set<Candidate>, drop: Candidate, add: Candidate)
    requires chosen <= Elements(cs) && add in cs
    ensures chosen - {drop} + {add} <= Elements(cs)
  {}

  lemma OneMoreTop(tops: set<Candidate>, chosen: set<Candidate>, drop: Candidate, add: Candidate)
    requires drop !in tops && add in tops && add !in chosen
    ensures |tops - (chosen - {drop} + {add})| < |tops - chosen|
  {
    assert tops - (chosen - {drop} + {add}) == tops - chosen - {add};
  }

  /** Putting a missing top in place of a chosen candidate of its sub-question. */
  lemma ImproveOnce(cs: seq<Candidate>, tops: set<Candidate>, chosen: set<Candidate>) returns (next: set<Candidate>)
    requires Distinct(cs) && Represents(cs, tops) && Covers(chosen, tops)
    requires chosen <= Elements(cs) && !(tops <= chosen)
    ensures Covers(next, tops) && next <= Elements(cs)
    ensures |next| == |chosen| && ScoreOf(cs, next) >= ScoreOf(cs, chosen)
    ensures |tops - next| < |tops - chosen|
  {
    var t :| t in tops && t !in chosen;
    var c :| c in chosen && c.index == t.index;
    assert c in cs && t in cs;
    assert c !in tops;
    next := chosen - {c} + {t};
    Exchange(cs, chosen, c, t);
    StillCovers(chosen, tops, c, t);
    StillWithin(cs, chosen, c, t);
    OneMoreTop(tops, chosen, c, t);
  }

  /** A covering choice can be made to contain all tops without losing score or changing its size. */
  lemma {:induction false} MoveToTops(cs: seq<Candidate>, tops: set<Candidate>, chosen: set<Candidate>)
    returns (better: set<Candidate>)
    requires Distinct(cs) && Represents(cs, tops) && Covers(chosen, tops)
    requires chosen <= Elements(cs)
    ensures tops <= better <= Elements(cs) && |better| == |chosen|
    ensures ScoreOf(cs, better) >= ScoreOf(cs, chosen)
    decreases |tops - chosen|
  {
    if tops <= chosen {
      better := chosen;
    } else {
      var next := ImproveOnce(cs, tops, chosen);
      better := MoveToTops(cs, tops, next);
    }
  }

  /** A choice that only leaves out candidates no better than its own is the best of its size. */
  lemma {:induction false} BestOfSize(cs: seq<Candidate>, best: set<Candidate>, other: set<Candidate>)
    requires Distinct(cs) && best <= Elements(cs) && other <= Elements(cs) && |best| == |other|
    requires forall a, b | a in best - other && b in other - best :: a.item.score >= b.item.score
    ensures ScoreOf(cs, other) <= ScoreOf(cs, best)
    decreases |other - best|
  {
    if other <= best {
      FullSubset(other, best);
    } else {
      var b :| b in other - best;
      if best <= other {
        FullSubset(best, other);
      }
      var a :| a in best - other;
      var next := other - {b} + {a};
      Exchange(cs, other, b, a);
      assert next - best == other - best - {b};
      assert best - next <= best - other;
      BestOfSize(cs, best, next);
    }
  }

  // ---- What the capped result is ----

  ghost predicate NodesDiffer(scores: seq<NodeScore>) {
    forall i, j | 0 <= i < j < |scores| :: scores[i].node != scores[j].node
  }

  /** No sub-question offers the same node twice. */
  ghost predicate NoRepeat(subs: seq<SubIntent>) {
    forall sub | sub in subs :: NodesDiffer(sub.scores)
  }

  lemma {:induction false} CountDistinct(cs: seq<Candidate>)
    requires forall c :: multiset(cs)[c] <= 1
    ensures Distinct(cs)
  {
    forall i, j | 0 <= i < j < |cs|
      ensures cs[i] != cs[j]
    {
      var a, b := cs[..j], cs[j..];
      assert cs == a + b;
      assert a[i] in multiset(a) && b[0] in multiset(b);
      assert multiset(cs)[cs[j]] == multiset(a)[cs[j]] + multiset(b)[cs[j]];
    }
  }

  lemma {:induction false} DistinctCount(cs: seq<Candidate>)
    requires Distinct(cs)
    ensures forall c :: multiset(cs)[c] <= 1
  {
    if cs != [] {
      var n := |cs| - 1;
      DistinctCount(cs[..n]);
      assert cs == cs[..n] + [cs[n]];
      assert cs[n] !in cs[..n];
      assert cs[n] !in multiset(cs[..n]);
    }
  }

  lemma PermutationIsDistinct(a: seq<Candidate>, b: seq<Candidate>)
    requires Distinct(a) && multiset(a) == multiset(b)
    ensures Distinct(b)
  {
    DistinctCount(a);
    CountDistinct(b);
  }

  /** In sorted order the first candidate of a sub-question is a best one. */
  lemma TopsAreBest(cs: seq<Candidate>)
    requires Descending(cs)
    ensures forall t, c | t in Tops(cs) && c in cs && c.index == t.index :: t.item.score >= c.item.score
  {
    forall t, c | t in Tops(cs) && c in cs && c.index == t.index
      ensures t.item.score >= c.item.score
    {
      TopIsBest(cs, t, c);
    }
  }

  lemma {:induction false} TopIsBest(cs: seq<Candidate>, t: Candidate, c: Candidate)
    requires Descending(cs) && t in Tops(cs) && c in cs && c.index == t.index
    ensures t.item.score >= c.item.score
  {
    var n := |cs| - 1;
    assert cs == cs[..n] + [cs[n]];
    if t in Tops(cs[..n]) && c in cs[..n] {
      TopIsBest(cs[..n], t, c);
    } else if t in Tops(cs[..n]) {
      TopsAreFirsts(cs[..n]);
      var i :| 0 <= i < n && cs[..n][i] == t;
      assert cs[i].item.score >= cs[n].item.score;
    } else {
      assert t == cs[n] && !HasIndex(cs[..n], t.index);
      assert c !in cs[..n];
    }
  }

  lemma TopsRepresent(cs: seq<Candidate>)
    requires Descending(cs)
    ensures Represents(cs, Elements(Tops(cs)))
  {
    TopsAreBest(cs);
    TopsAreFirsts(cs);
    var tops := Tops(cs);
    forall t, u | t in tops && u in tops && t.index == u.index
      ensures t == u
    {
      var i :| 0 <= i < |tops| && tops[i] == t;
      var j :| 0 <= j < |tops| && tops[j] == u;
      assert i == j;
    }
  }

  /** The rest, in order: what is not taken, still sorted and without repetition. */
  lemma {:induction false} RestIsSorted(cs: seq<Candidate>, taken: seq<Candidate>)
    requires Descending(cs) && Distinct(cs)
    ensures Descending(Rest(cs, taken)) && Distinct(Rest(cs, taken))
    ensures forall c :: c in Rest(cs, taken) <==> c in cs && !HasKey(taken, Key(c))
  {
    if cs != [] {
      var n := |cs| - 1;
      RestIsSorted(cs[..n], taken);
      var before := Rest(cs[..n], taken);
      forall c
        ensures c in cs <==> c in cs[..n] || c == cs[n]
      {
        assert cs == cs[..n] + [cs[n]];
      }
      forall i | 0 <= i < |before|
        ensures before[i].item.score >= cs[n].item.score && before[i] != cs[n]
      {
        assert before[i] in cs[..n];
        var k :| 0 <= k < n && cs[..n][k] == before[i];
        assert cs[k].item.score >= cs[n].item.score;
      }
    }
  }

  // ---- Counting candidates ----

  lemma {:induction false} TaggedCount(index: nat, scores: seq<NodeScore>, c: Candidate)
    ensures multiset(Tagged(index, scores))[c] == if c.index == index then multiset(scores)[c.item] else 0
  {
    if scores != [] {
      var n := |scores| - 1;
      TaggedCount(index, scores[..n], c);
      TaggedLast(index, scores, c);
      CountLast(scores, c.item);
    }
  }

  lemma CountLast<T>(s: seq<T>, y: T)
    requires s != []
    ensures multiset(s)[y] == multiset(s[..|s| - 1])[y] + (if s[|s| - 1] == y then 1 else 0)
  {
    assert s == s[..|s| - 1] + [s[|s| - 1]];
  }

  lemma TaggedLast(index: nat, scores: seq<NodeScore>, c: Candidate)
    requires scores != []
    ensures var n := |scores| - 1;
            multiset(Tagged(index, scores))[c] ==
            multiset(Tagged(index, scores[..n]))[c] + (if Candidate(index, scores[n]) == c then 1 else 0)
  {
    var tagged, before := Tagged(index, scores), Tagged(index, scores[..|scores| - 1]);
    CountLast(tagged, c);
    assert tagged[..|scores| - 1] == before;
  }

  /** A candidate occurs in the flat list as often as its score in its own sub-question. */
  lemma {:induction false} FlatCount(subs: seq<SubIntent>, c: Candidate)
    ensures multiset(Flat(subs))[c] == if c.index < |subs| then multiset(subs[c.index].scores)[c.item] else 0
  {
    if subs != [] {
      var n := |subs| - 1;
      FlatCount(subs[..n], c);
      FlatLast(subs, c);
      TaggedCount(n, subs[n].scores, c);
    }
  }

  lemma FlatLast(subs: seq<SubIntent>, c: Candidate)
    requires subs != []
    ensures var n := |subs| - 1;
            multiset(Flat(subs))[c] == multiset(Flat(subs[..n]))[c] + multiset(Tagged(n, subs[n].scores))[c]
  {
    var n := |subs| - 1;
    assert Flat(subs) == Flat(subs[..n]) + Tagged(n, subs[n].scores);
  }

  lemma {:induction false} GroupCount(cs: seq<Candidate>, index: nat, c: Candidate)
    ensures multiset(Group(cs, index))[c] == if c.index == index then multiset(cs)[c] else 0
  {
    if cs != [] {
      var n := |cs| - 1;
      GroupCount(cs[..n], index, c);
      assert cs == cs[..n] + [cs[n]];
    }
  }

  lemma {:induction false} UntaggedCount(cs: seq<Candidate>, index: nat, x: NodeScore)
    requires forall c | c in cs :: c.index == index
    ensures multiset(Untagged(cs))[x] == multiset(cs)[Candidate(index, x)]
  {
    if cs != [] {
      var n := |cs| - 1;
      assert cs == cs[..n] + [cs[n]];
      assert cs[n] in cs;
      UntaggedCount(cs[..n], index, x);
      UntaggedSnoc(cs[..n], cs[n], index, x);
    }
  }

  lemma UntaggedSnoc(cs: seq<Candidate>, c: Candidate, index: nat, x: NodeScore)
    requires c.index == index
    ensures multiset(Untagged(cs + [c]))[x] == multiset(Untagged(cs))[x] + (if c.item == x then 1 else 0)
    ensures multiset(cs + [c])[Candidate(index, x)] == multiset(cs)[Candidate(index, x)] + (if c.item == x then 1 else 0)
  {
    assert (cs + [c])[..|cs|] == cs;
    assert Untagged(cs + [c]) == Untagged(cs) + [c.item];
  }

  /** Each rebuilt sub-question holds exactly its own selected scores. */
  lemma RebuiltCount(subs: seq<SubIntent>, selected: seq<Candidate>, i: nat, x: NodeScore)
    requires i < |subs|
    ensures multiset(Rebuilt(subs, selected)[i].scores)[x] == multiset(selected)[Candidate(i, x)]
  {
    var group := Group(selected, i);
    RebuiltAt(subs, selected, i);
    ByScoreSorts(group);
    SameElements(ByScore(group), group);
    forall c | c in ByScore(group)
      ensures c.index == i
    {
      GroupCount(selected, i, c);
      assert c in multiset(group);
    }
    UntaggedCount(ByScore(group), i, x);
    GroupCount(selected, i, Candidate(i, x));
  }

  /** Rebuilding loses and invents nothing. */
  lemma RebuiltIsPermutation(subs: seq<SubIntent>, selected: seq<Candidate>)
    requires IndicesBelow(selected, |subs|)
    ensures multiset(Flat(Rebuilt(subs, selected))) == multiset(selected)
  {
    forall c: Candidate
      ensures multiset(Flat(Rebuilt(subs, selected)))[c] == multiset(selected)[c]
    {
      FlatCount(Rebuilt(subs, selected), c);
      if c.index < |subs| {
        RebuiltCount(subs, selected, c.index, c.item);
        assert c == Candidate(c.index, c.item);
      } else {
        assert c !in selected;
        assert c !in multiset(selected);
      }
    }
  }

  // ---- The theorems ----

  ghost function NonEmpty(subs: seq<SubIntent>): set<nat> {
    set i: nat | i < |subs| && subs[i].scores != []
  }

  /** `cs` lists exactly the recognized intents. */
  ghost predicate Listed(subs: seq<SubIntent>, cs: seq<Candidate>) {
    forall c :: c in cs <==> c.index < |subs| && c.item in subs[c.index].scores
  }

  /** `tops` has one candidate for each sub-question that occurs. */
  ghost predicate Firsts(cs: seq<Candidate>, tops: seq<Candidate>) {
    && (forall t | t in tops :: t in cs)
    && (forall x: nat :: HasIndex(tops, x) <==> HasIndex(cs, x))
    && (forall i, j | 0 <= i < j < |tops| :: tops[i].index != tops[j].index)
  }

  ghost predicate OnePerKey(cs: seq<Candidate>) {
    forall c, d | c in cs && d in cs && Key(c) == Key(d) :: c == d
  }

  /** `rest` is what the tops leave, in order. */
  ghost predicate Remaining(cs: seq<Candidate>, tops: seq<Candidate>, rest: seq<Candidate>) {
    && (forall c :: c in rest <==> c in cs && c !in tops)
    && Descending(rest) && Distinct(rest)
  }

  lemma CandidatesAreListed(subs: seq<SubIntent>)
    ensures Listed(subs, ByScore(Flat(subs))) && |ByScore(Flat(subs))| == |Flat(subs)|
  {
    ByScoreSorts(Flat(subs));
    SameElements(ByScore(Flat(subs)), Flat(subs));
    FlatIndices(subs);
    forall c | c in Flat(subs)
      ensures c.index < |subs|
    {}
    forall c: Candidate | c.index < |subs| && c.item in subs[c.index].scores
      ensures c in Flat(subs)
    {
      assert Candidate(c.index, c.item) == c;
    }
  }

  lemma ListedIndex(subs: seq<SubIntent>, cs: seq<Candidate>, i: nat)
    requires Listed(subs, cs)
    ensures HasIndex(cs, i) <==> i in NonEmpty(subs)
  {
    if i in NonEmpty(subs) {
      var c := Candidate(i, subs[i].scores[0]);
      assert c in cs;
      var k :| 0 <= k < |cs| && cs[k] == c;
      assert cs[k].index == i;
    }
    if HasIndex(cs, i) {
      var k :| 0 <= k < |cs| && cs[k].index == i;
      assert cs[k] in cs;
    }
  }

  /** The tops stand for the non-empty sub-questions, one each. */
  lemma FirstsCount(subs: seq<SubIntent>, cs: seq<Candidate>, tops: seq<Candidate>)
    requires Listed(subs, cs) && Firsts(cs, tops)
    ensures |tops| == |NonEmpty(subs)| && Distinct(tops)
    ensures forall i: nat :: HasIndex(tops, i) <==> i in NonEmpty(subs)
  {
    DistinctIndices(tops);
    forall i: nat
      ensures HasIndex(tops, i) <==> i in NonEmpty(subs)
      ensures i in Indices(tops) <==> HasIndex(tops, i)
    {
      ListedIndex(subs, cs, i);
      if i in Indices(tops) {
        var t :| t in tops && t.index == i;
        var k :| 0 <= k < |tops| && tops[k] == t;
      }
    }
    assert Indices(tops) == NonEmpty(subs);
  }

  lemma {:induction false} RestWithin(cs: seq<Candidate>, taken: seq<Candidate>)
    ensures forall c | c in Rest(cs, taken) :: c in cs && !HasKey(taken, Key(c))
  {
    if cs != [] {
      RestWithin(cs[..|cs| - 1], taken);
    }
  }

  lemma TakeWithin(cs: seq<Candidate>, n: int)
    ensures forall c | c in Take(cs, n) :: c in cs
    ensures |Take(cs, n)| == if n <= 0 then 0 else if |cs| <= n then |cs| else n
  {}

  /** Below the cap nothing changes; above it the flat result is the selection, reordered. */
  lemma CappedIsSelection(subs: seq<SubIntent>, cap: int)
    requires |Flat(subs)| > cap
    ensures multiset(Flat(Capped(subs, cap))) == multiset(Selection(ByScore(Flat(subs)), cap))
  {
    var cs := ByScore(Flat(subs));
    var tops, rest := Tops(cs), Rest(cs, Tops(cs));
    CandidatesAreListed(subs);
    TopsAreFirsts(cs);
    RestWithin(cs, tops);
    SelectionListed(subs, cs, tops, rest, cap);
    RebuiltIsPermutation(subs, Selection(cs, cap));
  }

  lemma SelectionListed(subs: seq<SubIntent>, cs: seq<Candidate>, tops: seq<Candidate>, rest: seq<Candidate>, cap: int)
    requires Listed(subs, cs)
    requires forall c | c in tops || c in rest :: c in cs
    ensures IndicesBelow(tops + Take(rest, cap - |tops|), |subs|)
  {
    TakeWithin(rest, cap - |tops|);
  }

  // ---- The top of a sub-question, and how many scores have another node ----

  /** The first of the highest scores. */
  function Top(scores: seq<NodeScore>): NodeScore
    requires scores != []
  {
    var n := |scores| - 1;
    if n == 0 then scores[0]
    else if scores[n].score > Top(scores[..n]).score then scores[n] else Top(scores[..n])
  }

  function OtherNodes(scores: seq<NodeScore>, node: string): nat {
    if scores == [] then 0
    else OtherNodes(scores[..|scores| - 1], node) + (if scores[|scores| - 1].node == node then 0 else 1)
  }

  /** How many scores carry another node than the top of their sub-question. */
  function Fresh(subs: seq<SubIntent>): nat {
    if subs == [] then 0
    else
      var scores := subs[|subs| - 1].scores;
      Fresh(subs[..|subs| - 1]) + (if scores == [] then 0 else OtherNodes(scores, Top(scores).node))
  }

  /** The first candidate of a sub-question, in the given order. */
  function FirstAt(cs: seq<Candidate>, index: nat): Option<Candidate> {
    if cs == [] then None else if cs[0].index == index then Some(cs[0]) else FirstAt(cs[1..], index)
  }

  lemma {:induction false} FirstAtIsThere(cs: seq<Candidate>, index: nat)
    ensures FirstAt(cs, index).Some? ==> FirstAt(cs, index).value in cs && FirstAt(cs, index).value.index == index
    ensures FirstAt(cs, index).None? <==> !HasIndex(cs, index)
  {
    if cs != [] && cs[0].index != index {
      FirstAtIsThere(cs[1..], index);
      if HasIndex(cs, index) {
        var k :| 0 <= k < |cs| && cs[k].index == index;
        assert cs[1..][k - 1].index == index;
      }
      if HasIndex(cs[1..], index) {
        var k :| 0 <= k < |cs[1..]| && cs[1..][k].index == index;
        assert cs[k + 1].index == index;
      }
    } else if cs != [] {
      assert cs[0].index == index;
    }
  }

  lemma {:induction false} FirstAtSnoc(cs: seq<Candidate>, c: Candidate, index: nat)
    ensures FirstAt(cs + [c], index) ==
            if FirstAt(cs, index).Some? then FirstAt(cs, index) else if c.index == index then Some(c) else None
  {
    if cs != [] {
      FirstAtSnoc(cs[1..], c, index);
      assert (cs + [c])[1..] == cs[1..] + [c];
    } else {
      assert ([] + [c])[0] == c && ([] + [c])[1..] == [];
    }
  }

  /** The better of a first candidate and a later one. */
  function Better(first: Option<Candidate>, c: Candidate): Option<Candidate> {
    if first.Some? && first.value.item.score >= c.item.score then first else Some(c)
  }

  lemma {:induction false} InsertFirst(c: Candidate, cs: seq<Candidate>, index: nat)
    requires Descending(cs)
    ensures FirstAt(InsertByScore(c, cs), index) == if c.index == index then Better(FirstAt(cs, index), c) else FirstAt(cs, index)
  {
    if cs != [] && cs[0].item.score >= c.item.score {
      InsertFirst(c, cs[1..], index);
      assert InsertByScore(c, cs)[1..] == InsertByScore(c, cs[1..]);
    } else {
      assert InsertByScore(c, cs) == [c] + cs && ([c] + cs)[1..] == cs;
      FirstAtIsThere(cs, index);
    }
  }

  /** The best candidate of a sub-question, the earliest among equals. */
  function BestAt(cs: seq<Candidate>, index: nat): Option<Candidate> {
    if cs == [] then None
    else
      var c := cs[|cs| - 1];
      if c.index == index then Better(BestAt(cs[..|cs| - 1], index), c) else BestAt(cs[..|cs| - 1], index)
  }

  lemma {:induction false} SortedFirstIsBest(cs: seq<Candidate>, index: nat)
    ensures FirstAt(ByScore(cs), index) == BestAt(cs, index)
  {
    if cs != [] {
      SortedFirstIsBest(cs[..|cs| - 1], index);
      ByScoreSorts(cs[..|cs| - 1]);
      InsertFirst(cs[|cs| - 1], ByScore(cs[..|cs| - 1]), index);
    }
  }

  lemma {:induction false} BestOfTagged(before: seq<Candidate>, n: nat, scores: seq<NodeScore>, index: nat)
    requires BestAt(before, n) == None
    ensures BestAt(before + Tagged(n, scores), index) ==
            if index == n then (if scores == [] then None else Some(Candidate(n, Top(scores)))) else BestAt(before, index)
  {
    if scores == [] {
      assert before + Tagged(n, scores) == before;
    } else {
      var k := |scores| - 1;
      BestOfTagged(before, n, scores[..k], index);
      var all := before + Tagged(n, scores);
      assert all[..|all| - 1] == before + Tagged(n, scores[..k]);
      assert all[|all| - 1] == Candidate(n, scores[k]);
    }
  }

  lemma {:induction false} BestOfFlat(subs: seq<SubIntent>, index: nat)
    ensures BestAt(Flat(subs), index) ==
            if index < |subs| && subs[index].scores != [] then Some(Candidate(index, Top(subs[index].scores))) else None
  {
    if subs != [] {
      var n := |subs| - 1;
      BestOfFlat(subs[..n], index);
      BestOfFlat(subs[..n], n);
      BestOfTagged(Flat(subs[..n]), n, subs[n].scores, index);
    }
  }

  /** The selected tops are the first candidates. */
  lemma {:induction false} TopsHoldFirsts(cs: seq<Candidate>, c: Candidate)
    ensures c in Tops(cs) <==> FirstAt(cs, c.index) == Some(c)
  {
    if cs != [] {
      var init, last := cs[..|cs| - 1], cs[|cs| - 1];
      TopsHoldFirsts(init, c);
      FirstAtSnoc(init, last, c.index);
      FirstAtIsThere(init, c.index);
      FirstAtIsThere(init, last.index);
      assert cs == init + [last];
    }
  }

  /** The candidate carries the node of its sub-question's top. */
  predicate LikeTop(subs: seq<SubIntent>, c: Candidate) {
    c.index < |subs| && subs[c.index].scores != [] && Top(subs[c.index].scores).node == c.item.node
  }

  lemma KeyOfTop(subs: seq<SubIntent>, c: Candidate)
    ensures HasKey(Tops(ByScore(Flat(subs))), Key(c)) <==> LikeTop(subs, c)
  {
    var cs := ByScore(Flat(subs));
    SortedFirstIsBest(Flat(subs), c.index);
    BestOfFlat(subs, c.index);
    if HasKey(Tops(cs), Key(c)) {
      var k :| 0 <= k < |Tops(cs)| && Key(Tops(cs)[k]) == Key(c);
      TopsHoldFirsts(cs, Tops(cs)[k]);
    }
    if LikeTop(subs, c) {
      var t := Candidate(c.index, Top(subs[c.index].scores));
      TopsHoldFirsts(cs, t);
      var k :| 0 <= k < |Tops(cs)| && Tops(cs)[k] == t;
      assert Key(Tops(cs)[k]) == Key(c);
    }
  }

  function CountUnlike(subs: seq<SubIntent>, cs: seq<Candidate>): nat {
    if cs == [] then 0
    else CountUnlike(subs, cs[..|cs| - 1]) + (if LikeTop(subs, cs[|cs| - 1]) then 0 else 1)
  }

  lemma {:induction false} RestCounts(subs: seq<SubIntent>, cs: seq<Candidate>, tops: seq<Candidate>)
    requires tops == Tops(ByScore(Flat(subs)))
    ensures |Rest(cs, tops)| == CountUnlike(subs, cs)
  {
    if cs != [] {
      RestCounts(subs, cs[..|cs| - 1], tops);
      KeyOfTop(subs, cs[|cs| - 1]);
    }
  }

  lemma {:induction false} UnlikeCons(subs: seq<SubIntent>, c: Candidate, cs: seq<Candidate>)
    ensures CountUnlike(subs, [c] + cs) == CountUnlike(subs, cs) + (if LikeTop(subs, c) then 0 else 1)
  {
    if cs == [] {
      assert ([c] + cs)[..0] == [] && ([c] + cs)[0] == c;
    } else {
      UnlikeCons(subs, c, cs[..|cs| - 1]);
      assert ([c] + cs)[..|cs|] == [c] + cs[..|cs| - 1];
    }
  }

  lemma {:induction false} InsertKeepsUnlike(subs: seq<SubIntent>, c: Candidate, cs: seq<Candidate>)
    ensures CountUnlike(subs, InsertByScore(c, cs)) == CountUnlike(subs, cs) + (if LikeTop(subs, c) then 0 else 1)
  {
    if cs != [] && cs[0].item.score >= c.item.score {
      InsertKeepsUnlike(subs, c, cs[1..]);
      UnlikeCons(subs, cs[0], InsertByScore(c, cs[1..]));
      UnlikeCons(subs, cs[0], cs[1..]);
      assert cs == [cs[0]] + cs[1..];
    } else {
      UnlikeCons(subs, c, cs);
      assert cs == [] ==> [c] == [c] + cs;
    }
  }

  lemma {:induction false} SortKeepsUnlike(subs: seq<SubIntent>, cs: seq<Candidate>)
    ensures CountUnlike(subs, ByScore(cs)) == CountUnlike(subs, cs)
  {
    if cs != [] {
      SortKeepsUnlike(subs, cs[..|cs| - 1]);
      InsertKeepsUnlike(subs, cs[|cs| - 1], ByScore(cs[..|cs| - 1]));
    }
  }

  lemma {:induction false} UnlikeTagged(subs: seq<SubIntent>, before: seq<Candidate>, n: nat, scores: seq<NodeScore>, node: string)
    requires n < |subs| && (subs[n].scores != [] ==> node == Top(subs[n].scores).node) && (scores != [] ==> subs[n].scores != [])
    ensures CountUnlike(subs, before + Tagged(n, scores)) == CountUnlike(subs, before) + OtherNodes(scores, node)
  {
    if scores == [] {
      assert before + Tagged(n, scores) == before;
    } else {
      var k := |scores| - 1;
      UnlikeTagged(subs, before, n, scores[..k], node);
      var all := before + Tagged(n, scores);
      assert all[..|all| - 1] == before + Tagged(n, scores[..k]);
      assert all[|all| - 1] == Candidate(n, scores[k]);
    }
  }

  lemma {:induction false} UnlikeFlat(subs: seq<SubIntent>, k: nat)
    requires k <= |subs|
    ensures CountUnlike(subs, Flat(subs[..k])) == Fresh(subs[..k])
  {
    if k > 0 {
      UnlikeFlat(subs, k - 1);
      assert subs[..k][..k - 1] == subs[..k - 1];
      var scores := subs[k - 1].scores;
      UnlikeTagged(subs, Flat(subs[..k - 1]), k - 1, scores, if scores == [] then "" else Top(scores).node);
    }
  }

  /** What is left for the additional selection is counted on the input. */
  lemma RestIsFresh(subs: seq<SubIntent>)
    ensures var cs := ByScore(Flat(subs)); |Rest(cs, Tops(cs))| == Fresh(subs)
  {
    var cs := ByScore(Flat(subs));
    RestCounts(subs, cs, Tops(cs));
    SortKeepsUnlike(subs, Flat(subs));
    UnlikeFlat(subs, |subs|);
    assert subs[..|subs|] == subs;
  }

  /**
   * Above the cap, the result has exactly max(cap, number of non-empty sub-questions) intents if and
   * only if enough scores carry another node than their sub-question's top.
   */
  lemma CappedSizeExactly(subs: seq<SubIntent>, cap: int)
    requires |Flat(subs)| > cap
    ensures var n := |NonEmpty(subs)|;
            |Flat(Capped(subs, cap))| == (if cap > n then cap else n) <==> cap <= n || Fresh(subs) >= cap - n
  {
    var cs := ByScore(Flat(subs));
    CappedIsSelection(subs, cap);
    SameElements(Flat(Capped(subs, cap)), Selection(cs, cap));
    CandidatesAreListed(subs);
    TopsAreFirsts(cs);
    FirstsCount(subs, cs, Tops(cs));
    TakeWithin(Rest(cs, Tops(cs)), cap - |Tops(cs)|);
    RestIsFresh(subs);
  }

  lemma {:induction false} DifferingCount(scores: seq<NodeScore>, x: NodeScore)
    requires NodesDiffer(scores)
    ensures multiset(scores)[x] <= 1
  {
    if scores != [] {
      var n := |scores| - 1;
      DifferingCount(scores[..n], x);
      assert scores == scores[..n] + [scores[n]];
      if x == scores[n] {
        assert x !in scores[..n];
        assert x !in multiset(scores[..n]);
      }
    }
  }

  lemma FlatIsDistinct(subs: seq<SubIntent>)
    requires NoRepeat(subs)
    ensures forall c :: multiset(Flat(subs))[c] <= 1
  {
    forall c: Candidate
      ensures multiset(Flat(subs))[c] <= 1
    {
      FlatCount(subs, c);
      if c.index < |subs| {
        assert subs[c.index] in subs;
        DifferingCount(subs[c.index].scores, c.item);
      }
    }
  }

  /** The sorted candidates of sub-questions without repetition. */
  lemma SortedCandidates(subs: seq<SubIntent>)
    requires NoRepeat(subs)
    ensures var cs := ByScore(Flat(subs));
            Descending(cs) && Distinct(cs) && Listed(subs, cs) && OnePerKey(cs)
  {
    var cs := ByScore(Flat(subs));
    ByScoreSorts(Flat(subs));
    FlatIsDistinct(subs);
    CountDistinct(cs);
    CandidatesAreListed(subs);
    forall c, d | c in cs && d in cs && Key(c) == Key(d)
      ensures c == d
    {
      assert subs[c.index] in subs;
      OneNodeOneScore(subs[c.index].scores, c.item, d.item);
    }
  }

  lemma OneNodeOneScore(scores: seq<NodeScore>, x: NodeScore, y: NodeScore)
    requires NodesDiffer(scores) && x in scores && y in scores && x.node == y.node
    ensures x == y
  {
    var i :| 0 <= i < |scores| && scores[i] == x;
    var j :| 0 <= j < |scores| && scores[j] == y;
    assert i == j;
  }

  /** Without repetition the candidates not taken as tops are exactly the others. */
  lemma RestIsComplement(cs: seq<Candidate>, tops: seq<Candidate>)
    requires Descending(cs) && Distinct(cs) && OnePerKey(cs) && Firsts(cs, tops)
    ensures Remaining(cs, tops, Rest(cs, tops))
  {
    RestIsSorted(cs, tops);
    forall c | c in cs
      ensures HasKey(tops, Key(c)) <==> c in tops
    {
      if HasKey(tops, Key(c)) {
        var k :| 0 <= k < |tops| && Key(tops[k]) == Key(c);
        assert tops[k] in tops && tops[k] in cs;
      }
      if c in tops {
        var k :| 0 <= k < |tops| && tops[k] == c;
        assert Key(tops[k]) == Key(c);
      }
    }
  }

  lemma DistinctSize(cs: seq<Candidate>)
    requires Distinct(cs)
    ensures |Elements(cs)| == |cs|
  {
    ListScore(cs, cs);
  }

  lemma RemainingSize(cs: seq<Candidate>, tops: seq<Candidate>, rest: seq<Candidate>)
    requires Distinct(cs) && Distinct(tops) && Remaining(cs, tops, rest) && forall t | t in tops :: t in cs
    ensures |tops| + |rest| == |cs|
  {
    DistinctSize(cs);
    DistinctSize(tops);
    DistinctSize(rest);
    assert Elements(cs) == Elements(tops) + Elements(rest);
  }

  /** Everything the proofs below need to know about the sorted candidates, their tops and the rest. */
  ghost predicate Laid(subs: seq<SubIntent>, cs: seq<Candidate>, tops: seq<Candidate>, rest: seq<Candidate>) {
    && Descending(cs) && Distinct(cs) && Listed(subs, cs)
    && Firsts(cs, tops) && Represents(cs, Elements(tops)) && Distinct(tops)
    && Remaining(cs, tops, rest)
  }

  lemma LayOut(subs: seq<SubIntent>)
    requires NoRepeat(subs)
    ensures var cs := ByScore(Flat(subs)); Laid(subs, cs, Tops(cs), Rest(cs, Tops(cs)))
  {
    var cs := ByScore(Flat(subs));
    SortedCandidates(subs);
    TopsAreFirsts(cs);
    FirstsCount(subs, cs, Tops(cs));
    TopsRepresent(cs);
    RestIsComplement(cs, Tops(cs));
  }

  lemma LayOutAs(subs: seq<SubIntent>, cs: seq<Candidate>, tops: seq<Candidate>, rest: seq<Candidate>)
    requires NoRepeat(subs) && cs == ByScore(Flat(subs)) && tops == Tops(cs) && rest == Rest(cs, tops)
    ensures Laid(subs, cs, tops, rest)
  {
    LayOut(subs);
  }

  /** Without repetition every score but the tops counts. */
  lemma FreshIsRemainder(subs: seq<SubIntent>)
    requires NoRepeat(subs)
    ensures Fresh(subs) + |NonEmpty(subs)| == |Flat(subs)|
  {
    var cs := ByScore(Flat(subs));
    RestIsFresh(subs);
    RemainderOf(subs, cs, Tops(cs), Rest(cs, Tops(cs)));
    CandidatesAreListed(subs);
  }

  lemma RemainderOf(subs: seq<SubIntent>, cs: seq<Candidate>, tops: seq<Candidate>, rest: seq<Candidate>)
    requires NoRepeat(subs) && cs == ByScore(Flat(subs)) && tops == Tops(cs) && rest == Rest(cs, tops)
    ensures |rest| + |NonEmpty(subs)| == |cs|
  {
    LayOutAs(subs, cs, tops, rest);
    FirstsCount(subs, cs, tops);
    RemainingSize(cs, tops, rest);
  }

  /** Without repetition the size is always max(cap, number of non-empty sub-questions). */
  lemma CappedSize(subs: seq<SubIntent>, cap: int)
    requires NoRepeat(subs) && |Flat(subs)| > cap
    ensures var n := |NonEmpty(subs)|; |Flat(Capped(subs, cap))| == if cap > n then cap else n
  {
    CappedSizeExactly(subs, cap);
    FreshIsRemainder(subs);
  }

  /** With a repeated node the result can stay below the cap. */
  lemma RepetitionCanShrink(subs: seq<SubIntent>)
    requires subs == [SubIntent("q", [NodeScore("a", 0.9), NodeScore("a", 0.8), NodeScore("a", 0.7)])]
    ensures |Flat(subs)| == 3 && |Flat(Capped(subs, 2))| != 2
  {
    assert Flat(subs[..0]) == [] && Fresh(subs[..0]) == 0;
    assert |Flat(subs)| == 3;
    assert NonEmpty(subs) == {0};
    OneNodeOnly(subs[0].scores, "a");
    CappedSizeExactly(subs, 2);
  }

  lemma {:induction false} OneNodeOnly(scores: seq<NodeScore>, node: string)
    requires forall x | x in scores :: x.node == node
    ensures OtherNodes(scores, node) == 0
    ensures scores != [] ==> Top(scores).node == node
  {
    if scores != [] {
      OneNodeOnly(scores[..|scores| - 1], node);
      assert scores[|scores| - 1] in scores;
    }
  }

  /** A choice from the recognized intents: some of each sub-question's, at least one where there are any. */
  ghost predicate Choice(subs: seq<SubIntent>, other: seq<SubIntent>) {
    && |other| == |subs|
    && (forall i | 0 <= i < |subs| :: multiset(other[i].scores) <= multiset(subs[i].scores))
    && (forall i | 0 <= i < |subs| :: subs[i].scores != [] ==> other[i].scores != [])
  }

  lemma ChoiceIsDistinct(subs: seq<SubIntent>, other: seq<SubIntent>)
    requires NoRepeat(subs) && Choice(subs, other)
    ensures Distinct(Flat(other))
  {
    FlatIsDistinct(subs);
    forall c: Candidate
      ensures multiset(Flat(other))[c] <= 1
    {
      FlatCount(subs, c);
      FlatCount(other, c);
      assert multiset(Flat(subs))[c] <= 1;
    }
    CountDistinct(Flat(other));
  }

  lemma ChoiceCovers(subs: seq<SubIntent>, other: seq<SubIntent>, flat: seq<Candidate>, cs: seq<Candidate>, tops: seq<Candidate>)
    requires Choice(subs, other) && Listed(subs, cs) && Listed(other, flat) && Firsts(cs, tops)
    ensures Elements(flat) <= Elements(cs) && Covers(Elements(flat), Elements(tops))
  {
    forall c | c in flat
      ensures c in cs
    {
      assert c.item in multiset(other[c.index].scores);
      assert c.item in multiset(subs[c.index].scores);
    }
    FirstsCount(subs, cs, tops);
    forall t | t in Elements(tops)
      ensures exists c :: c in Elements(flat) && c.index == t.index
    {
      var k :| 0 <= k < |tops| && tops[k] == t;
      assert HasIndex(tops, t.index);
      assert Candidate(t.index, other[t.index].scores[0]) in flat;
    }
  }

  lemma SelectionWithin(cs: seq<Candidate>, tops: seq<Candidate>, rest: seq<Candidate>, n: int)
    requires Distinct(tops) && Remaining(cs, tops, rest) && forall t | t in tops :: t in cs
    ensures var selected := tops + Take(rest, n);
            Distinct(selected) && Elements(tops) <= Elements(selected) <= Elements(cs)
  {
    var more := Take(rest, n);
    TakeWithin(rest, n);
    forall i, j | 0 <= i < j < |tops + more|
      ensures (tops + more)[i] != (tops + more)[j]
    {
      assert j >= |tops| ==> (tops + more)[j] in more;
      assert i < |tops| ==> (tops + more)[i] in tops;
    }
  }

  lemma TakeAt(cs: seq<Candidate>, n: int, j: nat)
    requires j < |cs|
    ensures j < |Take(cs, n)| ==> cs[j] in Take(cs, n)
  {
    if j < |Take(cs, n)| {
      assert Take(cs, n)[j] == cs[j];
    }
  }

  lemma TakeIsBest(cs: seq<Candidate>, n: int, a: Candidate, b: Candidate)
    requires Descending(cs) && a in Take(cs, n) && b in cs && b !in Take(cs, n)
    ensures a.item.score >= b.item.score
  {
    var i :| 0 <= i < |Take(cs, n)| && Take(cs, n)[i] == a;
    var j :| 0 <= j < |cs| && cs[j] == b;
    TakeAt(cs, n, j);
    assert cs[i] == a;
  }

  /** Among the candidates, no covering set of the same size scores more than the selection. */
  lemma SelectionIsBest(subs: seq<SubIntent>, cs: seq<Candidate>, tops: seq<Candidate>, rest: seq<Candidate>, n: int, chosen: set<Candidate>)
    requires Laid(subs, cs, tops, rest)
    requires chosen <= Elements(cs) && Covers(chosen, Elements(tops)) && |chosen| == |tops + Take(rest, n)|
    ensures ScoreOf(cs, chosen) <= ScoreOf(cs, Elements(tops + Take(rest, n)))
  {
    var selected := tops + Take(rest, n);
    SelectionWithin(cs, tops, rest, n);
    DistinctSize(selected);
    var better := MoveToTops(cs, Elements(tops), chosen);
    forall a, b | a in Elements(selected) - better && b in better - Elements(selected)
      ensures a.item.score >= b.item.score
    {
      assert a !in tops && b !in tops && b in cs;
      assert a in Take(rest, n) && b in rest && b !in Take(rest, n);
      TakeIsBest(rest, n, a, b);
    }
    BestOfSize(cs, Elements(selected), better);
  }

  /** The score of a list is that of its set, whatever its order. */
  lemma ScoreOfPermutation(cs: seq<Candidate>, a: seq<Candidate>, b: seq<Candidate>)
    requires Distinct(cs) && Distinct(a) && multiset(a) == multiset(b) && Elements(a) <= Elements(cs)
    ensures Score(b) == ScoreOf(cs, Elements(a)) && |a| == |b|
  {
    PermutationIsDistinct(a, b);
    SameElements(b, a);
    assert Elements(b) == Elements(a);
    forall c | c in b
      ensures c in cs
    {
      assert c in Elements(a);
    }
    ListScore(cs, b);
  }

  lemma FlatIsListed(subs: seq<SubIntent>)
    ensures Listed(subs, Flat(subs))
  {
    CandidatesAreListed(subs);
    ByScoreSorts(Flat(subs));
    SameElements(ByScore(Flat(subs)), Flat(subs));
  }

  /** A result that consists of the tops and the best `n` of the rest. */
  ghost predicate MadeOf(subs: seq<SubIntent>, result: seq<SubIntent>,
                         cs: seq<Candidate>, tops: seq<Candidate>, rest: seq<Candidate>, n: int)
  {
    && Laid(subs, cs, tops, rest)
    && result == Rebuilt(subs, tops + Take(rest, n))
    && multiset(Flat(result)) == multiset(tops + Take(rest, n))
  }

  lemma CappedIsMadeOf(subs: seq<SubIntent>, cap: int)
    returns (cs: seq<Candidate>, tops: seq<Candidate>, rest: seq<Candidate>, n: int)
    requires NoRepeat(subs) && |Flat(subs)| > cap
    ensures MadeOf(subs, Capped(subs, cap), cs, tops, rest, n)
  {
    cs := ByScore(Flat(subs));
    tops := Tops(cs);
    rest := Rest(cs, tops);
    n := cap - |tops|;
    LayOutAs(subs, cs, tops, rest);
    var result := Capped(subs, cap);
    CappedIsRebuilt(subs, cap, result, cs, tops, rest, n);
  }

  lemma CappedIsRebuilt(subs: seq<SubIntent>, cap: int, result: seq<SubIntent>,
                        cs: seq<Candidate>, tops: seq<Candidate>, rest: seq<Candidate>, n: int)
    requires |Flat(subs)| > cap && cs == ByScore(Flat(subs)) && tops == Tops(cs) && rest == Rest(cs, tops)
    requires result == Capped(subs, cap) && n == cap - |tops|
    ensures result == Rebuilt(subs, tops + Take(rest, n))
    ensures multiset(Flat(result)) == multiset(tops + Take(rest, n))
  {
    CappedIsSelection(subs, cap);
    SelectionParts(cs, cap, tops, rest, n);
  }

  lemma SelectionParts(cs: seq<Candidate>, cap: int, tops: seq<Candidate>, rest: seq<Candidate>, n: int)
    requires tops == Tops(cs) && rest == Rest(cs, tops) && n == cap - |tops|
    ensures Selection(cs, cap) == tops + Take(rest, n)
  {}

  lemma MadeOfScore(subs: seq<SubIntent>, result: seq<SubIntent>,
                    cs: seq<Candidate>, tops: seq<Candidate>, rest: seq<Candidate>, n: int)
    requires MadeOf(subs, result, cs, tops, rest, n)
    ensures Score(Flat(result)) == ScoreOf(cs, Elements(tops + Take(rest, n)))
    ensures |Flat(result)| == |tops + Take(rest, n)|
  {
    SelectionWithin(cs, tops, rest, n);
    ScoreOfPermutation(cs, tops + Take(rest, n), Flat(result));
  }

  lemma ChoiceScore(subs: seq<SubIntent>, other: seq<SubIntent>, flat: seq<Candidate>, cs: seq<Candidate>, tops: seq<Candidate>)
    requires Distinct(cs) && Listed(subs, cs) && Firsts(cs, tops)
    requires Choice(subs, other) && Listed(other, flat) && Distinct(flat)
    ensures Elements(flat) <= Elements(cs) && Covers(Elements(flat), Elements(tops))
    ensures Score(flat) == ScoreOf(cs, Elements(flat)) && |Elements(flat)| == |flat|
  {
    ChoiceCovers(subs, other, flat, cs, tops);
    forall c | c in flat
      ensures c in cs
    {
      assert c in Elements(flat);
    }
    ListScore(cs, flat);
  }

  lemma ChoiceNotBetter(subs: seq<SubIntent>, other: seq<SubIntent>, flat: seq<Candidate>,
                        cs: seq<Candidate>, tops: seq<Candidate>, rest: seq<Candidate>, n: int)
    requires Laid(subs, cs, tops, rest)
    requires Choice(subs, other) && Listed(other, flat) && Distinct(flat) && |flat| == |tops + Take(rest, n)|
    ensures Score(flat) <= ScoreOf(cs, Elements(tops + Take(rest, n)))
  {
    ChoiceScore(subs, other, flat, cs, tops);
    SelectionIsBest(subs, cs, tops, rest, n, Elements(flat));
  }

  lemma MadeOfIsBest(subs: seq<SubIntent>, result: seq<SubIntent>, other: seq<SubIntent>, flat: seq<Candidate>,
                     cs: seq<Candidate>, tops: seq<Candidate>, rest: seq<Candidate>, n: int)
    requires MadeOf(subs, result, cs, tops, rest, n)
    requires Choice(subs, other) && Listed(other, flat) && Distinct(flat) && |flat| == |Flat(result)|
    ensures Score(flat) <= Score(Flat(result))
  {
    assert Score(Flat(result)) == ScoreOf(cs, Elements(tops + Take(rest, n))) && |Flat(result)| == |tops + Take(rest, n)| by {
      MadeOfScore(subs, result, cs, tops, rest, n);
    }
    assert Score(flat) <= ScoreOf(cs, Elements(tops + Take(rest, n))) by {
      ChoiceNotBetter(subs, other, flat, cs, tops, rest, n);
    }
  }

  /** Capping is optimal among all choices of the same size. */
  lemma CappingIsOptimal(subs: seq<SubIntent>, cap: int, other: seq<SubIntent>)
    requires NoRepeat(subs) && |Flat(subs)| > cap
    requires Choice(subs, other) && |Flat(other)| == |Flat(Capped(subs, cap))|
    ensures Score(Flat(other)) <= Score(Flat(Capped(subs, cap)))
  {
    ChoiceIsDistinct(subs, other);
    FlatIsListed(other);
    var cs, tops, rest, n := CappedIsMadeOf(subs, cap);
    MadeOfIsBest(subs, Capped(subs, cap), other, Flat(other), cs, tops, rest, n);
  }

  /** The result is itself a choice, and every non-empty sub-question keeps a best intent of its own in front. */
  lemma CappedKeepsTops(subs: seq<SubIntent>, cap: int)
    requires NoRepeat(subs) && |Flat(subs)| > cap
    ensures Choice(subs, Capped(subs, cap))
    ensures forall i | 0 <= i < |subs| :: Capped(subs, cap)[i].question == subs[i].question
    ensures forall i, x | 0 <= i < |subs| && x in subs[i].scores ::
              Capped(subs, cap)[i].scores != [] && Capped(subs, cap)[i].scores[0].score >= x.score
  {
    var cs, tops, rest, n := CappedIsMadeOf(subs, cap);
    MadeOfKeepsTops(subs, Capped(subs, cap), cs, tops, rest, n);
  }

  lemma MadeOfKeepsTops(subs: seq<SubIntent>, result: seq<SubIntent>,
                        cs: seq<Candidate>, tops: seq<Candidate>, rest: seq<Candidate>, n: int)
    requires MadeOf(subs, result, cs, tops, rest, n)
    ensures Choice(subs, result)
    ensures forall i | 0 <= i < |subs| :: result[i].question == subs[i].question
    ensures forall i, x | 0 <= i < |subs| && x in subs[i].scores ::
              result[i].scores != [] && result[i].scores[0].score >= x.score
  {
    MadeOfWithin(subs, result, cs, tops, rest, n);
    forall i, x | 0 <= i < |subs| && x in subs[i].scores
      ensures result[i].scores != [] && result[i].scores[0].score >= x.score
    {
      MadeOfKeepsTop(subs, result, cs, tops, rest, n, i, x);
    }
    ChoiceFromParts(subs, result);
  }

  lemma MadeOfKeepsTop(subs: seq<SubIntent>, result: seq<SubIntent>,
                       cs: seq<Candidate>, tops: seq<Candidate>, rest: seq<Candidate>, n: int, i: nat, x: NodeScore)
    requires MadeOf(subs, result, cs, tops, rest, n) && i < |subs| && x in subs[i].scores
    ensures result[i].scores != [] && result[i].scores[0].score >= x.score
  {
    KeepsTop(subs, cs, tops, rest, n, i, x);
  }

  lemma MadeOfWithin(subs: seq<SubIntent>, result: seq<SubIntent>,
                     cs: seq<Candidate>, tops: seq<Candidate>, rest: seq<Candidate>, n: int)
    requires MadeOf(subs, result, cs, tops, rest, n)
    ensures |result| == |subs|
    ensures forall i | 0 <= i < |subs| :: multiset(result[i].scores) <= multiset(subs[i].scores)
    ensures forall i | 0 <= i < |subs| :: result[i].question == subs[i].question
  {
    SelectionWithin(cs, tops, rest, n);
    RebuiltAllWithin(subs, result, cs, tops + Take(rest, n));
  }

  lemma ChoiceFromParts(subs: seq<SubIntent>, result: seq<SubIntent>)
    requires |result| == |subs|
    requires forall i | 0 <= i < |subs| :: multiset(result[i].scores) <= multiset(subs[i].scores)
    requires forall i, x | 0 <= i < |subs| && x in subs[i].scores :: result[i].scores != []
    ensures Choice(subs, result)
  {
    forall i | 0 <= i < |subs| && subs[i].scores != []
      ensures result[i].scores != []
    {
      assert subs[i].scores[0] in subs[i].scores;
    }
  }

  lemma RebuiltAllWithin(subs: seq<SubIntent>, result: seq<SubIntent>, cs: seq<Candidate>, selected: seq<Candidate>)
    requires Listed(subs, cs) && Distinct(selected) && Elements(selected) <= Elements(cs)
    requires result == Rebuilt(subs, selected)
    ensures forall i | 0 <= i < |subs| :: multiset(result[i].scores) <= multiset(subs[i].scores)
    ensures forall i | 0 <= i < |subs| :: result[i].question == subs[i].question
  {
    forall i: nat | i < |subs|
      ensures result[i].question == subs[i].question
      ensures multiset(result[i].scores) <= multiset(subs[i].scores)
    {
      RebuiltAt(subs, selected, i);
      RebuiltWithin(subs, cs, selected, i);
    }
  }

  lemma RebuiltWithin(subs: seq<SubIntent>, cs: seq<Candidate>, selected: seq<Candidate>, i: nat)
    requires Listed(subs, cs) && Distinct(selected) && Elements(selected) <= Elements(cs) && i < |subs|
    ensures multiset(Rebuilt(subs, selected)[i].scores) <= multiset(subs[i].scores)
  {
    DistinctCount(selected);
    forall x
      ensures multiset(Rebuilt(subs, selected)[i].scores)[x] <= multiset(subs[i].scores)[x]
    {
      var c := Candidate(i, x);
      RebuiltCount(subs, selected, i, x);
      if c in multiset(selected) {
        assert c in Elements(selected) && c in cs;
        assert x in multiset(subs[i].scores);
      }
    }
  }

  lemma KeepsTop(subs: seq<SubIntent>, cs: seq<Candidate>, tops: seq<Candidate>, rest: seq<Candidate>, n: int, i: nat, x: NodeScore)
    requires Laid(subs, cs, tops, rest)
    requires i < |subs| && x in subs[i].scores
    ensures var result := Rebuilt(subs, tops + Take(rest, n));
            result[i].scores != [] && result[i].scores[0].score >= x.score
  {
    var selected := tops + Take(rest, n);
    FirstsCount(subs, cs, tops);
    assert Candidate(i, x) in cs;
    assert i in NonEmpty(subs);
    var k :| 0 <= k < |tops| && tops[k].index == i;
    var t := tops[k];
    assert t in Elements(tops);
    assert selected[k] == t;
    FrontIsBest(selected, i, t);
    RebuiltAt(subs, selected, i);
  }

  lemma FrontIsBest(selected: seq<Candidate>, i: nat, t: Candidate)
    requires t in selected && t.index == i
    ensures var front := Untagged(ByScore(Group(selected, i))); front != [] && front[0].score >= t.item.score
  {
    GroupCount(selected, i, t);
    assert t in multiset(selected) && t in multiset(Group(selected, i));
    ByScoreSorts(Group(selected, i));
    SameElements(ByScore(Group(selected, i)), Group(selected, i));
    var group := ByScore(Group(selected, i));
    var m :| 0 <= m < |group| && group[m] == t;
    assert group[0].item.score >= group[m].item.score;
  }
}
