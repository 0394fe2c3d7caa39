// session_fact_cache.go: a bounded list of facts, without duplicates, with a limit for every category.
module FactCache {
  import opened Messages

  datatype Fact = Fact(category: string, content: string)

  datatype Cache = Cache(facts: seq<Fact>, seen: set<string>)

  const EMPTY := Cache([], {})

  // A category without a limit of its own has the cache's.
  function Limit(category: string, maxFacts: nat): (r: nat)
    requires maxFacts >= 1
    ensures r >= 1
  {
    if category == "import" then 30
    else if category == "file_structure" then 50
    else if category == "definition" then 40
    else if category == "reference" then 80
    else maxFacts
  }

  function OfCategory(facts: seq<Fact>, category: string): seq<Fact> {
    if facts == [] then []
    else
      var before, f := OfCategory(facts[..|facts| - 1], category), facts[|facts| - 1];
      if f.category == category then before + [f] else before
  }

  function FirstOf(facts: seq<Fact>, category: string): (i: nat)
    ensures i <= |facts| && (forall j :: 0 <= j < i ==> facts[j].category != category)
    ensures i < |facts| ==> facts[i].category == category
  {
    if facts == [] || facts[0].category == category then 0 else 1 + FirstOf(facts[1..], category)
  }

  function Evict(c: Cache, i: nat): Cache
    requires i < |c.facts|
  {
    Cache(c.facts[..i] + c.facts[i + 1..], c.seen - {c.facts[i].content})
  }

  // The category's limit first, then the limit of the whole.
  function MadeRoom(c: Cache, category: string, maxFacts: nat): Cache
    requires maxFacts >= 1
  {
    var first := FirstOf(c.facts, category);
    var c1 := if |OfCategory(c.facts, category)| >= Limit(category, maxFacts) && first < |c.facts| then
      Evict(c, first) else c;
    if |c1.facts| >= maxFacts then Evict(c1, 0) else c1
  }

  function AddSpec(c: Cache, f: Fact, maxFacts: nat): Cache
    requires maxFacts >= 1
  {
    if f.content in c.seen then c
    else
      var room := MadeRoom(c, f.category, maxFacts);
      Cache(room.facts + [f], room.seen + {f.content})
  }

  function Run(added: seq<Fact>, maxFacts: nat): Cache
    requires maxFacts >= 1
  {
    if added == [] then EMPTY else AddSpec(Run(added[..|added| - 1], maxFacts), added[|added| - 1], maxFacts)
  }

  class SessionFactCache {
    var facts: seq<Fact>
    var seen: set<string>
    const maxFacts: nat

    function Contents(): Cache
      reads this
    {
      Cache(facts, seen)
    }

    constructor (maxFacts: nat)
      ensures this.maxFacts == maxFacts && Contents() == EMPTY
    {
      this.maxFacts := maxFacts;
      facts, seen := [], {};
    }

    method CountOf(category: string) returns (count: nat)
      ensures count == |OfCategory(facts, category)|
    {
      count := 0;
      for i := 0 to |facts|
        invariant count == |OfCategory(facts[..i], category)|
      {
        assert facts[..i + 1][..i] == facts[..i];
        if facts[i].category == category {
          count := count + 1;
        }
      }
      assert facts[..|facts|] == facts;
    }

    method EvictOldestOf(category: string)
      modifies this
      ensures var first := FirstOf(old(facts), category);
              Contents() == if first < |old(facts)| then Evict(old(Contents()), first) else old(Contents())
    {
      for i := 0 to |facts|
        invariant facts == old(facts) && seen == old(seen)
        invariant forall j :: 0 <= j < i ==> facts[j].category != category
      {
        if facts[i].category == category {
          FirstIs(facts, category, i);
          seen := seen - {facts[i].content};
          facts := facts[..i] + facts[i + 1..];
          return;
        }
      }
    }

    // With maxFacts at zero the original would index an empty list.
    method AddFact(f: Fact)
      requires maxFacts >= 1
      modifies this
      ensures Contents() == AddSpec(old(Contents()), f, maxFacts)
    {
      if f.content in seen {
        return;
      }
      var limit := Limit(f.category, maxFacts);
      var count := CountOf(f.category);
      if count >= limit {
        EvictOldestOf(f.category);
      }
      if |facts| >= maxFacts {
        var oldest := facts[0];
        seen := seen - {oldest.content};
        facts := facts[1..];
        assert facts == [] + facts;
      }
      facts := facts + [f];
      seen := seen + {f.content};
    }
  }

  lemma {:induction false} FirstIs(facts: seq<Fact>, category: string, i: nat)
    requires i < |facts| && facts[i].category == category && forall j :: 0 <= j < i ==> facts[j].category != category
    ensures FirstOf(facts, category) == i
  {
  }

  // ---------------------------------------------------------------------------------------------
  // What holds after any run.

  ghost predicate Distinct(facts: seq<Fact>) {
    forall i, j :: 0 <= i < j < |facts| ==> facts[i].content != facts[j].content
  }

  ghost predicate Agrees(c: Cache) {
    Distinct(c.facts) && forall s :: s in c.seen <==> exists i :: 0 <= i < |c.facts| && c.facts[i].content == s
  }

  ghost predicate Bounded(facts: seq<Fact>, maxFacts: nat)
    requires maxFacts >= 1
  {
    |facts| <= maxFacts && forall category :: |OfCategory(facts, category)| <= Limit(category, maxFacts)
  }

  lemma EvictKeepsAgreement(c: Cache, i: nat)
    requires Agrees(c) && i < |c.facts|
    ensures Agrees(Evict(c, i))
  {
    var after := Evict(c, i);
    assert forall j :: 0 <= j < |after.facts| ==> after.facts[j] == c.facts[if j < i then j else j + 1];
    forall s | s in after.seen
      ensures exists j :: 0 <= j < |after.facts| && after.facts[j].content == s
    {
      var j :| 0 <= j < |c.facts| && c.facts[j].content == s;
      assert after.facts[if j < i then j else j - 1] == c.facts[j];
    }
  }

  lemma AddKeepsAgreement(c: Cache, f: Fact)
    requires Agrees(c) && f.content !in c.seen
    ensures Agrees(Cache(c.facts + [f], c.seen + {f.content}))
  {
    var after := Cache(c.facts + [f], c.seen + {f.content});
    forall s | s in after.seen
      ensures exists j :: 0 <= j < |after.facts| && after.facts[j].content == s
    {
      if s in c.seen {
        var j :| 0 <= j < |c.facts| && c.facts[j].content == s;
        assert after.facts[j] == c.facts[j];
      } else {
        assert after.facts[|c.facts|].content == s;
      }
    }
  }

  lemma {:induction false} CategorySplit(a: seq<Fact>, b: seq<Fact>, category: string)
    ensures OfCategory(a + b, category) == OfCategory(a, category) + OfCategory(b, category)
  {
    if b == [] {
      assert a + b == a;
      assert OfCategory(a, category) + [] == OfCategory(a, category);
    } else {
      var rest := b[..|b| - 1];
      CategorySplit(a, rest, category);
      assert (a + b)[..|a + b| - 1] == a + rest;
      if b[|b| - 1].category == category {
        assert OfCategory(a, category) + (OfCategory(rest, category) + [b[|b| - 1]])
            == OfCategory(a, category) + OfCategory(rest, category) + [b[|b| - 1]];
      }
    }
  }

  lemma {:induction false} OneFact(f: Fact, category: string)
    ensures OfCategory([f], category) == if f.category == category then [f] else []
  {
    assert [f][..0] == [];
    assert [] + [f] == [f];
  }

  lemma {:induction false} NoneBefore(facts: seq<Fact>, category: string)
    requires forall j :: 0 <= j < |facts| ==> facts[j].category != category
    ensures OfCategory(facts, category) == []
  {
    if facts != [] {
      NoneBefore(facts[..|facts| - 1], category);
    }
  }

  lemma {:induction false} CategoryEmptyIff(facts: seq<Fact>, category: string)
    ensures OfCategory(facts, category) == [] <==> FirstOf(facts, category) == |facts|
  {
    if FirstOf(facts, category) == |facts| {
      NoneBefore(facts, category);
    } else {
      EvictedIsOldest(facts, FirstOf(facts, category), category);
    }
  }

  // Removing a category's first fact takes away the first of that category and none of any other.
  lemma {:induction false} EvictedIsOldest(facts: seq<Fact>, i: nat, category: string)
    requires i < |facts| && forall j :: 0 <= j < i ==> facts[j].category != facts[i].category
    ensures var all, left := OfCategory(facts, category), OfCategory(facts[..i] + facts[i + 1..], category);
            if category == facts[i].category then all == [facts[i]] + left else all == left
  {
    var before, f, behind := facts[..i], facts[i], facts[i + 1..];
    assert facts == before + ([f] + behind);
    CategorySplit(before, [f] + behind, category);
    CategorySplit([f], behind, category);
    CategorySplit(before, behind, category);
    OneFact(f, category);
    if category == f.category {
      NoneBefore(before, category);
      assert [] + OfCategory(behind, category) == OfCategory(behind, category);
      assert [] + ([f] + OfCategory(behind, category)) == [f] + OfCategory(behind, category);
    } else {
      assert [] + OfCategory(behind, category) == OfCategory(behind, category);
    }
  }

  // Room is made by evicting at most one fact, the oldest of its category.
  lemma OneIsEvicted(c: Cache, category: string, maxFacts: nat) returns (evicted: Option<nat>)
    requires maxFacts >= 1 && Bounded(c.facts, maxFacts)
    ensures evicted.Some? ==>
              var i := evicted.value;
              i < |c.facts| && forall j :: 0 <= j < i ==> c.facts[j].category != c.facts[i].category
    ensures MadeRoom(c, category, maxFacts) == if evicted.None? then c else Evict(c, evicted.value)
    ensures evicted.Some? ==>
              if |OfCategory(c.facts, category)| >= Limit(category, maxFacts) then
                c.facts[evicted.value].category == category
              else evicted.value == 0
    ensures var room := MadeRoom(c, category, maxFacts).facts;
            |room| < maxFacts && |OfCategory(room, category)| < Limit(category, maxFacts)
  {
    var first := FirstOf(c.facts, category);
    CategoryEmptyIff(c.facts, category);
    assert |OfCategory(c.facts, category)| <= Limit(category, maxFacts);
    if |OfCategory(c.facts, category)| >= Limit(category, maxFacts) {
      EvictedIsOldest(c.facts, first, category);
      evicted := Some(first);
    } else if |c.facts| >= maxFacts {
      EvictedIsOldest(c.facts, 0, category);
      evicted := Some(0);
    } else {
      evicted := None;
    }
  }

  // One step: the new fact comes last, at most one old fact is gone, and the others keep their order.
  lemma AddedLast(c: Cache, f: Fact, maxFacts: nat) returns (evicted: Option<nat>)
    requires maxFacts >= 1 && Bounded(c.facts, maxFacts) && f.content !in c.seen
    ensures evicted.Some? ==> evicted.value < |c.facts|
    ensures AddSpec(c, f, maxFacts).facts
            == (if evicted.None? then c.facts else c.facts[..evicted.value] + c.facts[evicted.value + 1..]) + [f]
    ensures evicted.None? <==> |c.facts| < maxFacts && |OfCategory(c.facts, f.category)| < Limit(f.category, maxFacts)
    ensures evicted.Some? && |OfCategory(c.facts, f.category)| >= Limit(f.category, maxFacts) ==>
              && c.facts[evicted.value].category == f.category
              && forall j :: 0 <= j < evicted.value ==> c.facts[j].category != f.category
    ensures evicted.Some? && |OfCategory(c.facts, f.category)| < Limit(f.category, maxFacts) ==> evicted.value == 0
    ensures AddSpec(c, f, maxFacts).seen
            == (if evicted.None? then c.seen else c.seen - {c.facts[evicted.value].content}) + {f.content}
  {
    evicted := OneIsEvicted(c, f.category, maxFacts);
    assert |OfCategory(c.facts, f.category)| <= Limit(f.category, maxFacts);
  }

  // A fact whose content is in the cache changes nothing, not even the order.
  lemma {:induction false} DuplicateIsIgnored(added: seq<Fact>, f: Fact, maxFacts: nat)
    requires maxFacts >= 1
    requires exists i :: 0 <= i < |Run(added, maxFacts).facts| && Run(added, maxFacts).facts[i].content == f.content
    ensures Run(added + [f], maxFacts) == Run(added, maxFacts)
  {
    CacheIsSound(added, maxFacts);
    assert (added + [f])[..|added|] == added;
  }

  lemma OwnLimits(maxFacts: nat)
    requires maxFacts >= 1
    ensures Limit("import", maxFacts) == 30 && Limit("file_structure", maxFacts) == 50
    ensures Limit("definition", maxFacts) == 40 && Limit("reference", maxFacts) == 80
  {
    assert "import"[0] == 'i' && "file_structure"[0] == 'f' && "definition"[0] == 'd' && "reference"[0] == 'r';
  }

  // The categories with a limit of their own, and no others, whatever the size of the cache.
  lemma {:induction false} CategoryLimits(added: seq<Fact>, maxFacts: nat)
    requires maxFacts >= 1
    ensures var facts := Run(added, maxFacts).facts;
            && |OfCategory(facts, "import")| <= 30 && |OfCategory(facts, "file_structure")| <= 50
            && |OfCategory(facts, "definition")| <= 40 && |OfCategory(facts, "reference")| <= 80
    ensures forall category :: Limit(category, maxFacts) == maxFacts || category in OWN_LIMITS
  {
    OwnLimits(maxFacts);
    CacheIsSound(added, maxFacts);
    hide Run, OfCategory;
    assert Bounded(Run(added, maxFacts).facts, maxFacts);
  }

  const OWN_LIMITS: set<string> := {"import", "file_structure", "definition", "reference"}

  lemma AddKeepsBounds(c: Cache, f: Fact, maxFacts: nat)
    requires maxFacts >= 1 && Bounded(c.facts, maxFacts) && Agrees(c)
    ensures Bounded(AddSpec(c, f, maxFacts).facts, maxFacts) && Agrees(AddSpec(c, f, maxFacts))
  {
    if f.content !in c.seen {
      var evicted := OneIsEvicted(c, f.category, maxFacts);
      var room := MadeRoom(c, f.category, maxFacts);
      if evicted.Some? {
        EvictKeepsAgreement(c, evicted.value);
      }
      AddKeepsAgreement(room, f);
      forall category
        ensures |OfCategory(room.facts + [f], category)| <= Limit(category, maxFacts)
      {
        assert |OfCategory(c.facts, category)| <= Limit(category, maxFacts);
        CategorySplit(room.facts, [f], category);
        OneFact(f, category);
        if evicted.Some? {
          EvictedIsOldest(c.facts, evicted.value, category);
        }
      }
    }
  }

  // After any run the contents are distinct, seen is exactly their set, and all limits are kept.
  lemma {:induction false} CacheIsSound(added: seq<Fact>, maxFacts: nat)
    requires maxFacts >= 1
    ensures Bounded(Run(added, maxFacts).facts, maxFacts) && Agrees(Run(added, maxFacts))
  {
    if added != [] {
      CacheIsSound(added[..|added| - 1], maxFacts);
      AddKeepsBounds(Run(added[..|added| - 1], maxFacts), added[|added| - 1], maxFacts);
    }
  }

  // The facts that were not in the cache when they came.
  function Accepted(added: seq<Fact>, maxFacts: nat): seq<Fact>
    requires maxFacts >= 1
  {
    if added == [] then []
    else
      var before, f := Accepted(added[..|added| - 1], maxFacts), added[|added| - 1];
      if f.content in Run(added[..|added| - 1], maxFacts).seen then before else before + [f]
  }

  ghost predicate IsSuffix(a: seq<Fact>, b: seq<Fact>) {
    |a| <= |b| && b[|b| - |a|..] == a
  }

  lemma SuffixSnoc(a: seq<Fact>, b: seq<Fact>, f: Fact)
    requires IsSuffix(a, b)
    ensures IsSuffix(a + [f], b + [f])
  {
  }

  lemma SuffixTail(a: seq<Fact>, b: seq<Fact>, f: Fact)
    requires IsSuffix([f] + a, b)
    ensures IsSuffix(a, b)
  {
    assert a == ([f] + a)[1..];
  }

  // Of every category the cache holds the most recently accepted facts, in order.
  lemma {:induction false} CategoriesAreRecent(added: seq<Fact>, maxFacts: nat, category: string)
    requires maxFacts >= 1
    ensures IsSuffix(OfCategory(Run(added, maxFacts).facts, category), OfCategory(Accepted(added, maxFacts), category))
  {
    if added != [] {
      var rest, f := added[..|added| - 1], added[|added| - 1];
      var c := Run(rest, maxFacts);
      CategoriesAreRecent(rest, maxFacts, category);
      CacheIsSound(rest, maxFacts);
      if f.content !in c.seen {
        RecentStep(c, f, maxFacts, category, Accepted(rest, maxFacts));
      }
    }
  }

  lemma {:induction false} RecentStep(c: Cache, f: Fact, maxFacts: nat, category: string, accepted: seq<Fact>)
    requires maxFacts >= 1 && Bounded(c.facts, maxFacts) && f.content !in c.seen
    requires IsSuffix(OfCategory(c.facts, category), OfCategory(accepted, category))
    ensures IsSuffix(OfCategory(AddSpec(c, f, maxFacts).facts, category), OfCategory(accepted + [f], category))
  {
    var evicted := OneIsEvicted(c, f.category, maxFacts);
    var room := MadeRoom(c, f.category, maxFacts);
    if evicted.Some? {
      EvictedIsOldest(c.facts, evicted.value, category);
      if category == c.facts[evicted.value].category {
        SuffixTail(OfCategory(room.facts, category), OfCategory(accepted, category), c.facts[evicted.value]);
      }
    }
    CategorySplit(room.facts, [f], category);
    CategorySplit(accepted, [f], category);
    OneFact(f, category);
    if f.category == category {
      SuffixSnoc(OfCategory(room.facts, category), OfCategory(accepted, category), f);
    } else {
      assert OfCategory(room.facts, category) + [] == OfCategory(room.facts, category);
      assert OfCategory(accepted, category) + [] == OfCategory(accepted, category);
    }
  }

  function Min(a: nat, b: nat): nat {
    if a < b then a else b
  }

  // Until more than maxFacts facts have been accepted, the last ones of a category are kept up to its limit.
  lemma {:induction false} CategoriesAreFull(added: seq<Fact>, maxFacts: nat, category: string)
    requires maxFacts >= 1 && |Accepted(added, maxFacts)| <= maxFacts
    ensures |Run(added, maxFacts).facts| <= |Accepted(added, maxFacts)|
    ensures |OfCategory(Run(added, maxFacts).facts, category)|
            == Min(Limit(category, maxFacts), |OfCategory(Accepted(added, maxFacts), category)|)
  {
    if added != [] {
      var rest, f := added[..|added| - 1], added[|added| - 1];
      var c := Run(rest, maxFacts);
      CategoriesAreFull(rest, maxFacts, category);
      CacheIsSound(rest, maxFacts);
      if f.content !in c.seen {
        FullStep(c, f, maxFacts, category);
        CategorySplit(Accepted(rest, maxFacts), [f], category);
        OneFact(f, category);
      }
    }
  }

  lemma {:induction false} FullStep(c: Cache, f: Fact, maxFacts: nat, category: string)
    requires maxFacts >= 1 && Bounded(c.facts, maxFacts) && f.content !in c.seen && |c.facts| < maxFacts
    ensures var after := AddSpec(c, f, maxFacts).facts;
            && |after| <= |c.facts| + 1
            && |OfCategory(after, category)|
               == if f.category == category then Min(Limit(category, maxFacts), |OfCategory(c.facts, category)| + 1)
                  else |OfCategory(c.facts, category)|
  {
    var first := FirstOf(c.facts, f.category);
    CategoryEmptyIff(c.facts, f.category);
    assert |OfCategory(c.facts, f.category)| <= Limit(f.category, maxFacts);
    if |OfCategory(c.facts, f.category)| >= Limit(f.category, maxFacts) {
      EvictedIsOldest(c.facts, first, category);
    }
    CategorySplit(MadeRoom(c, f.category, maxFacts).facts, [f], category);
    OneFact(f, category);
  }
}
