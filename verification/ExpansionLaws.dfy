/** What an expansion guarantees: its byte bill, its shape, the names it uses and when it is possible. */
module ExpansionLaws {
  import opened Json
  import opened Expansion

  // ----- the bill, read off the output alone -----

  function Nonempty(m: Members): nat { if m.NoMembers? then 0 else 1 }

  /** Nonempty objects, `properties` maps and `oneOf` arrays that stand in schema positions. */
  function Surplus(s: Json): nat {
    if s.Obj? then Nonempty(s.members) + SurplusKeywords(s.members) else 0
  }

  function SurplusKeywords(m: Members): nat {
    match m
    case NoMembers => 0
    case Member(name, value, rest) =>
      (if name == "properties" && value.Obj? then Nonempty(value.members) + SurplusChildren(value.members)
       else if name == "items" || (name == "additionalProperties" && value.Obj?) then Surplus(value)
       else if name == "oneOf" && value.Arr? then (if value.items.NoItems? then 0 else 1) + SurplusBranches(value.items)
       else 0) + SurplusKeywords(rest)
  }

  function SurplusChildren(m: Members): nat {
    match m
    case NoMembers => 0
    case Member(_, child, rest) => Surplus(child) + SurplusChildren(rest)
  }

  function SurplusBranches(items: Items): nat {
    match items
    case NoItems => 0
    case Item(head, tail) => Surplus(head) + SurplusBranches(tail)
  }

  /** Schema nesting of a reference-free schema. */
  function Height(s: Json): nat {
    if s.Obj? then HeightKeywords(s.members) else 0
  }

  function HeightKeywords(m: Members): nat {
    match m
    case NoMembers => 0
    case Member(name, value, rest) =>
      Max(if name == "properties" && value.Obj? then HeightChildren(value.members)
          else if name == "items" || (name == "additionalProperties" && value.Obj?) then 1 + Height(value)
          else if name == "oneOf" && value.Arr? then HeightBranches(value.items)
          else 0, HeightKeywords(rest))
  }

  function HeightChildren(m: Members): nat {
    match m
    case NoMembers => 0
    case Member(_, child, rest) => Max(1 + Height(child), HeightChildren(rest))
  }

  function HeightBranches(items: Items): nat {
    match items
    case NoItems => 0
    case Item(head, tail) => Max(1 + Height(head), HeightBranches(tail))
  }

  // ----- references in schema positions -----

  function Refs(s: Json): set<string> {
    if !s.Obj? then {}
    else match Get(s.members, "$ref")
      case Some(reference) => if RefName(reference).Some? then {RefName(reference).value} else {}
      case None => KeywordRefs(s.members)
  }

  function KeywordRefs(m: Members): set<string> {
    match m
    case NoMembers => {}
    case Member(name, value, rest) =>
      (if name == "properties" && value.Obj? then ChildRefs(value.members)
       else if name == "items" || (name == "additionalProperties" && value.Obj?) then Refs(value)
       else if name == "oneOf" && value.Arr? then BranchRefs(value.items)
       else {}) + KeywordRefs(rest)
  }

  function ChildRefs(m: Members): set<string> {
    match m
    case NoMembers => {}
    case Member(_, child, rest) => Refs(child) + ChildRefs(rest)
  }

  function BranchRefs(items: Items): set<string> {
    match items
    case NoItems => {}
    case Item(head, tail) => Refs(head) + BranchRefs(tail)
  }

  lemma {:induction false} RefsAt(m: Members, name: string)
    requires Get(m, name).Some?
    ensures KeywordRefs(Member(name, Get(m, name).value, NoMembers)) <= KeywordRefs(m)
  {
    if m.name == name {
    } else {
      RefsAt(m.rest, name);
    }
  }

  lemma {:induction false} ChildRefsAt(m: Members, name: string)
    requires Get(m, name).Some?
    ensures Refs(Get(m, name).value) <= ChildRefs(m)
  {
    if m.name == name {
    } else {
      ChildRefsAt(m.rest, name);
    }
  }

  ghost predicate Closed(defs: Defs, names: set<string>) {
    forall n :: n in names ==> n in defs && Refs(defs[n]) <= names
  }

  /** No schema position holds a `$ref` keyword. */
  predicate RefFree(s: Json) {
    s.Obj? && Get(s.members, "$ref").None? && RefFreeKeywords(s.members)
  }

  predicate RefFreeKeywords(m: Members) {
    match m
    case NoMembers => true
    case Member(name, value, rest) =>
      && (name == "properties" ==> value.Obj? && RefFreeChildren(value.members))
      && (name == "items" || (name == "additionalProperties" && value.Obj?) ==> RefFree(value))
      && (name == "oneOf" ==> value.Arr? && RefFreeBranches(value.items))
      && RefFreeKeywords(rest)
  }

  predicate RefFreeChildren(m: Members) {
    m.Member? ==> RefFree(m.value) && RefFreeChildren(m.rest)
  }

  predicate RefFreeBranches(items: Items) {
    items.Item? ==> RefFree(items.head) && RefFreeBranches(items.tail)
  }

  lemma SurplusFirst(name: string, value: Json, rest: Members)
    ensures SurplusKeywords(Member(name, value, rest)) ==
            SurplusKeywords(Member(name, value, NoMembers)) + SurplusKeywords(rest)
  {
  }

  lemma {:induction false} KeepsNames(defs: Defs, blocked: set<string>, m: Members, name: string)
    requires Keywords(defs, blocked, m).Planned?
    ensures Get(Keywords(defs, blocked, m).out, name).Some? <==> Get(m, name).Some?
    decreases m
  {
    if m.NoMembers? {
    } else {
      KeepsNames(defs, blocked, m.rest, name);
    }
  }

  lemma {:induction false} ObjectOut(defs: Defs, blocked: set<string>, s: Json)
    requires Schema(defs, blocked, s).Planned?
    ensures Schema(defs, blocked, s).out.Obj?
    decreases defs.Keys - blocked
  {
    if Get(s.members, "$ref").Some? {
      var name := Target(defs, s.members).value;
      ObjectOut(defs, blocked + {name}, defs[name]);
    } else {
      assert Keywords(defs, blocked, s.members).Planned?;
    }
  }

  // ----- walks over the plan -----

  /** The output has no reference left. */
  lemma {:induction false} PlanRefFree(defs: Defs, blocked: set<string>, s: Json)
    requires Schema(defs, blocked, s).Planned?
    ensures var plan := Schema(defs, blocked, s); RefFree(plan.out)
    decreases defs.Keys - blocked, s, 0
  {
    if Get(s.members, "$ref").Some? {
      var name := Target(defs, s.members).value;
      PlanRefFree(defs, blocked + {name}, defs[name]);
    } else {
      KeywordsRefFree(defs, blocked, s.members);
      KeepsNames(defs, blocked, s.members, "$ref");
    }
  }

  lemma {:induction false} KeywordsRefFree(defs: Defs, blocked: set<string>, m: Members)
    requires Keywords(defs, blocked, m).Planned?
    ensures var plan := Keywords(defs, blocked, m); RefFreeKeywords(plan.out)
    decreases defs.Keys - blocked, m, 0
  {
    match m
    case NoMembers =>
    case Member(name, value, rest) =>
      KeywordsRefFree(defs, blocked, rest);
      KeywordRefFree(defs, blocked, name, value);
  }

  lemma {:induction false} KeywordRefFree(defs: Defs, blocked: set<string>, name: string, value: Json)
    requires Keyword(defs, blocked, name, value).Planned?
    ensures var plan := Keyword(defs, blocked, name, value); RefFreeKeywords(Member(name, plan.out, NoMembers))
    decreases defs.Keys - blocked, value, 1
  {
    if name == "properties" {
      ChildrenRefFree(defs, blocked, value.members);
    } else if name == "items" || (name == "additionalProperties" && value.Obj?) {
      PlanRefFree(defs, blocked, value);
    } else if name == "oneOf" {
      BranchesRefFree(defs, blocked, value.items);
    }
  }

  lemma {:induction false} ChildrenRefFree(defs: Defs, blocked: set<string>, m: Members)
    requires Children(defs, blocked, m).Planned?
    ensures var plan := Children(defs, blocked, m); RefFreeChildren(plan.out)
    decreases defs.Keys - blocked, m, 0
  {
    match m
    case NoMembers =>
    case Member(_, child, rest) =>
      PlanRefFree(defs, blocked, child);
      ChildrenRefFree(defs, blocked, rest);
  }

  lemma {:induction false} BranchesRefFree(defs: Defs, blocked: set<string>, items: Items)
    requires Branches(defs, blocked, items).Planned?
    ensures var plan := Branches(defs, blocked, items); RefFreeBranches(plan.out)
    decreases defs.Keys - blocked, items, 0
  {
    match items
    case NoItems =>
    case Item(head, tail) =>
      PlanRefFree(defs, blocked, head);
      BranchesRefFree(defs, blocked, tail);
  }

  /** The bytes charged are the compact size of the output and one byte per nonempty container built. */
  lemma {:induction false} PlanBytes(defs: Defs, blocked: set<string>, s: Json)
    requires Schema(defs, blocked, s).Planned?
    ensures var plan := Schema(defs, blocked, s); plan.bill.cost.bytes == Size(plan.out) + Surplus(plan.out)
    decreases defs.Keys - blocked, s, 0
  {
    if Get(s.members, "$ref").Some? {
      var name := Target(defs, s.members).value;
      PlanBytes(defs, blocked + {name}, defs[name]);
    } else {
      KeywordsBytes(defs, blocked, s.members);
    }
  }

  lemma {:induction false} KeywordsBytes(defs: Defs, blocked: set<string>, m: Members)
    requires Keywords(defs, blocked, m).Planned?
    ensures var plan := Keywords(defs, blocked, m);
            plan.bill.cost.bytes == MembersSize(plan.out) + Nonempty(plan.out) + SurplusKeywords(plan.out)
    decreases defs.Keys - blocked, m, 0
  {
    match m
    case NoMembers =>
    case Member(name, value, rest) =>
      KeywordsBytes(defs, blocked, rest);
      KeywordBytes(defs, blocked, name, value);
      var head, tail := Keyword(defs, blocked, name, value).out, Keywords(defs, blocked, rest).out;
      SurplusFirst(name, head, tail);
      assert Keywords(defs, blocked, m).out == Member(name, head, tail);
  }

  lemma {:induction false} KeywordBytes(defs: Defs, blocked: set<string>, name: string, value: Json)
    requires Keyword(defs, blocked, name, value).Planned?
    ensures var plan := Keyword(defs, blocked, name, value);
            plan.bill.cost.bytes == Size(plan.out) + SurplusKeywords(Member(name, plan.out, NoMembers))
    decreases defs.Keys - blocked, value, 1
  {
    if name == "properties" {
      ChildrenBytes(defs, blocked, value.members);
    } else if name == "items" || (name == "additionalProperties" && value.Obj?) {
      PlanBytes(defs, blocked, value);
    } else if name == "oneOf" {
      BranchesBytes(defs, blocked, value.items);
    }
  }

  lemma {:induction false} ChildrenBytes(defs: Defs, blocked: set<string>, m: Members)
    requires Children(defs, blocked, m).Planned?
    ensures var plan := Children(defs, blocked, m);
            plan.bill.cost.bytes == MembersSize(plan.out) + Nonempty(plan.out) + SurplusChildren(plan.out)
    decreases defs.Keys - blocked, m, 0
  {
    match m
    case NoMembers =>
    case Member(_, child, rest) =>
      PlanBytes(defs, blocked, child);
      ChildrenBytes(defs, blocked, rest);
  }

  lemma {:induction false} BranchesBytes(defs: Defs, blocked: set<string>, items: Items)
    requires Branches(defs, blocked, items).Planned?
    ensures var plan := Branches(defs, blocked, items);
            plan.bill.cost.bytes ==
            ItemsSize(plan.out) + (if plan.out.NoItems? then 0 else 1) + SurplusBranches(plan.out)
    decreases defs.Keys - blocked, items, 0
  {
    match items
    case NoItems =>
    case Item(head, tail) =>
      PlanBytes(defs, blocked, head);
      BranchesBytes(defs, blocked, tail);
  }

  /** The schema nesting is that of the output. */
  lemma {:induction false} PlanHeight(defs: Defs, blocked: set<string>, s: Json)
    requires Schema(defs, blocked, s).Planned?
    ensures var plan := Schema(defs, blocked, s); plan.bill.span.height == Height(plan.out)
    decreases defs.Keys - blocked, s, 0
  {
    if Get(s.members, "$ref").Some? {
      var name := Target(defs, s.members).value;
      PlanHeight(defs, blocked + {name}, defs[name]);
    } else {
      KeywordsHeight(defs, blocked, s.members);
    }
  }

  lemma {:induction false} KeywordsHeight(defs: Defs, blocked: set<string>, m: Members)
    requires Keywords(defs, blocked, m).Planned?
    ensures var plan := Keywords(defs, blocked, m); plan.bill.span.height == HeightKeywords(plan.out)
    decreases defs.Keys - blocked, m, 0
  {
    match m
    case NoMembers =>
    case Member(name, value, rest) =>
      KeywordsHeight(defs, blocked, rest);
      KeywordHeight(defs, blocked, name, value);
  }

  lemma {:induction false} KeywordHeight(defs: Defs, blocked: set<string>, name: string, value: Json)
    requires Keyword(defs, blocked, name, value).Planned?
    ensures var plan := Keyword(defs, blocked, name, value);
            plan.bill.span.height == HeightKeywords(Member(name, plan.out, NoMembers))
    decreases defs.Keys - blocked, value, 1
  {
    if name == "properties" {
      ChildrenHeight(defs, blocked, value.members);
    } else if name == "items" || (name == "additionalProperties" && value.Obj?) {
      PlanHeight(defs, blocked, value);
      ObjectOut(defs, blocked, value);
    } else if name == "oneOf" {
      BranchesHeight(defs, blocked, value.items);
    }
  }

  lemma {:induction false} ChildrenHeight(defs: Defs, blocked: set<string>, m: Members)
    requires Children(defs, blocked, m).Planned?
    ensures var plan := Children(defs, blocked, m); plan.bill.span.height == HeightChildren(plan.out)
    decreases defs.Keys - blocked, m, 0
  {
    match m
    case NoMembers =>
    case Member(_, child, rest) =>
      PlanHeight(defs, blocked, child);
      ChildrenHeight(defs, blocked, rest);
  }

  lemma {:induction false} BranchesHeight(defs: Defs, blocked: set<string>, items: Items)
    requires Branches(defs, blocked, items).Planned?
    ensures var plan := Branches(defs, blocked, items); plan.bill.span.height == HeightBranches(plan.out)
    decreases defs.Keys - blocked, items, 0
  {
    match items
    case NoItems =>
    case Item(head, tail) =>
      PlanHeight(defs, blocked, head);
      BranchesHeight(defs, blocked, tail);
  }

  /** The names used include the schema's own references and are closed under them. */
  lemma {:induction false} PlanNames(defs: Defs, blocked: set<string>, s: Json)
    requires Schema(defs, blocked, s).Planned?
    ensures var plan := Schema(defs, blocked, s); Closed(defs, plan.bill.names) && Refs(s) <= plan.bill.names
    decreases defs.Keys - blocked, s, 0
  {
    if Get(s.members, "$ref").Some? {
      var name := Target(defs, s.members).value;
      PlanNames(defs, blocked + {name}, defs[name]);
    } else {
      KeywordsNames(defs, blocked, s.members);
    }
  }

  lemma {:induction false} KeywordsNames(defs: Defs, blocked: set<string>, m: Members)
    requires Keywords(defs, blocked, m).Planned?
    ensures var plan := Keywords(defs, blocked, m); Closed(defs, plan.bill.names) && KeywordRefs(m) <= plan.bill.names
    decreases defs.Keys - blocked, m, 0
  {
    match m
    case NoMembers =>
    case Member(name, value, rest) =>
      KeywordsNames(defs, blocked, rest);
      KeywordNames(defs, blocked, name, value);
  }

  lemma {:induction false} KeywordNames(defs: Defs, blocked: set<string>, name: string, value: Json)
    requires Keyword(defs, blocked, name, value).Planned?
    ensures var plan := Keyword(defs, blocked, name, value);
            Closed(defs, plan.bill.names) && KeywordRefs(Member(name, value, NoMembers)) <= plan.bill.names
    decreases defs.Keys - blocked, value, 1
  {
    if name == "properties" {
      ChildrenNames(defs, blocked, value.members);
    } else if name == "items" || (name == "additionalProperties" && value.Obj?) {
      PlanNames(defs, blocked, value);
    } else if name == "oneOf" {
      BranchesNames(defs, blocked, value.items);
    }
  }

  lemma {:induction false} ChildrenNames(defs: Defs, blocked: set<string>, m: Members)
    requires Children(defs, blocked, m).Planned?
    ensures var plan := Children(defs, blocked, m); Closed(defs, plan.bill.names) && ChildRefs(m) <= plan.bill.names
    decreases defs.Keys - blocked, m, 0
  {
    match m
    case NoMembers =>
    case Member(_, child, rest) =>
      PlanNames(defs, blocked, child);
      ChildrenNames(defs, blocked, rest);
  }

  lemma {:induction false} BranchesNames(defs: Defs, blocked: set<string>, items: Items)
    requires Branches(defs, blocked, items).Planned?
    ensures var plan := Branches(defs, blocked, items);
            Closed(defs, plan.bill.names) && BranchRefs(items) <= plan.bill.names
    decreases defs.Keys - blocked, items, 0
  {
    match items
    case NoItems =>
    case Item(head, tail) =>
      PlanNames(defs, blocked, head);
      BranchesNames(defs, blocked, tail);
  }

  /** The names used are the least set closed under references that holds the schema's own. */
  lemma {:induction false} NamesLeast(defs: Defs, blocked: set<string>, s: Json, names: set<string>)
    requires Schema(defs, blocked, s).Planned?
    requires Closed(defs, names) && Refs(s) <= names
    ensures Schema(defs, blocked, s).bill.names <= names
    decreases defs.Keys - blocked, s, 0
  {
    if Get(s.members, "$ref").Some? {
      var name := Target(defs, s.members).value;
      assert name in names;
      NamesLeast(defs, blocked + {name}, defs[name], names);
    } else {
      KeywordNamesLeast(defs, blocked, s.members, names);
    }
  }

  lemma {:induction false} KeywordNamesLeast(defs: Defs, blocked: set<string>, m: Members, names: set<string>)
    requires Keywords(defs, blocked, m).Planned?
    requires Closed(defs, names) && KeywordRefs(m) <= names
    ensures Keywords(defs, blocked, m).bill.names <= names
    decreases defs.Keys - blocked, m, 0
  {
    match m
    case NoMembers =>
    case Member(name, value, rest) =>
      KeywordNamesLeast(defs, blocked, rest, names);
      assert Keyword(defs, blocked, name, value).Planned?;
      if name == "properties" {
        assert PropertyMap(defs, blocked, value).Planned?;
        ChildNamesLeast(defs, blocked, value.members, names);
      } else if name == "items" || (name == "additionalProperties" && value.Obj?) {
        NamesLeast(defs, blocked, value, names);
      } else if name == "oneOf" {
        assert Union(defs, blocked, value).Planned?;
        BranchNamesLeast(defs, blocked, value.items, names);
      }
  }

  lemma {:induction false} ChildNamesLeast(defs: Defs, blocked: set<string>, m: Members, names: set<string>)
    requires Children(defs, blocked, m).Planned?
    requires Closed(defs, names) && ChildRefs(m) <= names
    ensures Children(defs, blocked, m).bill.names <= names
    decreases defs.Keys - blocked, m, 0
  {
    match m
    case NoMembers =>
    case Member(_, child, rest) =>
      NamesLeast(defs, blocked, child, names);
      ChildNamesLeast(defs, blocked, rest, names);
  }

  lemma {:induction false} BranchNamesLeast(defs: Defs, blocked: set<string>, items: Items, names: set<string>)
    requires Branches(defs, blocked, items).Planned?
    requires Closed(defs, names) && BranchRefs(items) <= names
    ensures Branches(defs, blocked, items).bill.names <= names
    decreases defs.Keys - blocked, items, 0
  {
    match items
    case NoItems =>
    case Item(head, tail) =>
      NamesLeast(defs, blocked, head, names);
      BranchNamesLeast(defs, blocked, tail, names);
  }

  // ----- when an expansion is possible -----

  /** References stand alone and resolve, and the keywords that hold schemas have their JSON type. */
  predicate Sound(defs: Defs, s: Json) {
    s.Obj? && if Get(s.members, "$ref").Some? then Target(defs, s.members).Some? else SoundKeywords(defs, s.members)
  }

  predicate SoundKeywords(defs: Defs, m: Members) {
    m.Member? ==>
      && m.name != "$defs"
      && (m.name == "properties" ==> m.value.Obj? && SoundChildren(defs, m.value.members))
      && (m.name == "items" || (m.name == "additionalProperties" && m.value.Obj?) ==> Sound(defs, m.value))
      && (m.name == "oneOf" ==> m.value.Arr? && SoundBranches(defs, m.value.items))
      && SoundKeywords(defs, m.rest)
  }

  predicate SoundChildren(defs: Defs, m: Members) {
    m.Member? ==> Sound(defs, m.value) && SoundChildren(defs, m.rest)
  }

  predicate SoundBranches(defs: Defs, items: Items) {
    items.Item? ==> Sound(defs, items.head) && SoundBranches(defs, items.tail)
  }

  /** Every name in the ranking is sound and refers only to names of lower rank: no cycle can be reached. */
  ghost predicate Ranking(defs: Defs, rank: map<string, nat>) {
    forall n :: n in rank ==>
      && n in defs && Sound(defs, defs[n]) && Refs(defs[n]) <= rank.Keys
      && forall m :: m in Refs(defs[n]) ==> rank[m] < rank[n]
  }

  ghost predicate Below(rank: map<string, nat>, names: set<string>, bound: nat) {
    forall n :: n in names ==> n in rank && rank[n] < bound
  }

  ghost predicate Clear(rank: map<string, nat>, blocked: set<string>, bound: nat) {
    forall n :: n in blocked && n in rank ==> bound <= rank[n]
  }

  lemma {:induction false} RankedPlans(defs: Defs, rank: map<string, nat>, blocked: set<string>, s: Json, bound: nat)
    requires Ranking(defs, rank) && Sound(defs, s) && Below(rank, Refs(s), bound) && Clear(rank, blocked, bound)
    ensures Schema(defs, blocked, s).Planned?
    decreases bound, s, 0
  {
    if Get(s.members, "$ref").Some? {
      var name := Target(defs, s.members).value;
      assert name in Refs(s);
      RankedPlans(defs, rank, blocked + {name}, defs[name], rank[name]);
    } else {
      RankedKeywords(defs, rank, blocked, s.members, bound);
    }
  }

  lemma {:induction false} RankedKeywords(defs: Defs, rank: map<string, nat>, blocked: set<string>, m: Members,
                                          bound: nat)
    requires Ranking(defs, rank) && SoundKeywords(defs, m) && Below(rank, KeywordRefs(m), bound)
    requires Clear(rank, blocked, bound)
    ensures Keywords(defs, blocked, m).Planned?
    decreases bound, m, 0
  {
    match m
    case NoMembers =>
    case Member(name, value, rest) =>
      RankedKeywords(defs, rank, blocked, rest, bound);
      if name == "properties" {
        RankedChildren(defs, rank, blocked, value.members, bound);
      } else if name == "items" || (name == "additionalProperties" && value.Obj?) {
        RankedPlans(defs, rank, blocked, value, bound);
      } else if name == "oneOf" {
        RankedBranches(defs, rank, blocked, value.items, bound);
      }
      assert Keyword(defs, blocked, name, value).Planned?;
  }

  lemma {:induction false} RankedChildren(defs: Defs, rank: map<string, nat>, blocked: set<string>, m: Members,
                                          bound: nat)
    requires Ranking(defs, rank) && SoundChildren(defs, m) && Below(rank, ChildRefs(m), bound)
    requires Clear(rank, blocked, bound)
    ensures Children(defs, blocked, m).Planned?
    decreases bound, m, 0
  {
    if m.NoMembers? {
    } else {
      RankedPlans(defs, rank, blocked, m.value, bound);
      RankedChildren(defs, rank, blocked, m.rest, bound);
    }
  }

  lemma {:induction false} RankedBranches(defs: Defs, rank: map<string, nat>, blocked: set<string>, items: Items,
                                          bound: nat)
    requires Ranking(defs, rank) && SoundBranches(defs, items) && Below(rank, BranchRefs(items), bound)
    requires Clear(rank, blocked, bound)
    ensures Branches(defs, blocked, items).Planned?
    decreases bound, items, 0
  {
    if items.NoItems? {
    } else {
      RankedPlans(defs, rank, blocked, items.head, bound);
      RankedBranches(defs, rank, blocked, items.tail, bound);
    }
  }

  /** A plan does not depend on the names that were blocked when it was made. */
  lemma {:induction false} Unblocked(defs: Defs, blocked: set<string>, fewer: set<string>, s: Json)
    requires fewer <= blocked && Schema(defs, blocked, s).Planned?
    ensures Schema(defs, fewer, s) == Schema(defs, blocked, s)
    decreases defs.Keys - blocked, s, 0
  {
    if Get(s.members, "$ref").Some? {
      var name := Target(defs, s.members).value;
      Unblocked(defs, blocked + {name}, fewer + {name}, defs[name]);
    } else {
      UnblockedKeywords(defs, blocked, fewer, s.members);
    }
  }

  lemma {:induction false} UnblockedKeywords(defs: Defs, blocked: set<string>, fewer: set<string>, m: Members)
    requires fewer <= blocked && Keywords(defs, blocked, m).Planned?
    ensures Keywords(defs, fewer, m) == Keywords(defs, blocked, m)
    decreases defs.Keys - blocked, m, 0
  {
    match m
    case NoMembers =>
    case Member(name, value, rest) =>
      UnblockedKeywords(defs, blocked, fewer, rest);
      assert Keyword(defs, blocked, name, value).Planned?;
      if name == "properties" {
        assert PropertyMap(defs, blocked, value).Planned?;
        UnblockedChildren(defs, blocked, fewer, value.members);
      } else if name == "items" || (name == "additionalProperties" && value.Obj?) {
        Unblocked(defs, blocked, fewer, value);
      } else if name == "oneOf" {
        assert Union(defs, blocked, value).Planned?;
        UnblockedBranches(defs, blocked, fewer, value.items);
      }
      assert Keyword(defs, fewer, name, value) == Keyword(defs, blocked, name, value);
  }

  lemma {:induction false} UnblockedChildren(defs: Defs, blocked: set<string>, fewer: set<string>, m: Members)
    requires fewer <= blocked && Children(defs, blocked, m).Planned?
    ensures Children(defs, fewer, m) == Children(defs, blocked, m)
    decreases defs.Keys - blocked, m, 0
  {
    if m.NoMembers? {
    } else {
      Unblocked(defs, blocked, fewer, m.value);
      UnblockedChildren(defs, blocked, fewer, m.rest);
    }
  }

  lemma {:induction false} UnblockedBranches(defs: Defs, blocked: set<string>, fewer: set<string>, items: Items)
    requires fewer <= blocked && Branches(defs, blocked, items).Planned?
    ensures Branches(defs, fewer, items) == Branches(defs, blocked, items)
    decreases defs.Keys - blocked, items, 0
  {
    if items.NoItems? {
    } else {
      Unblocked(defs, blocked, fewer, items.head);
      UnblockedBranches(defs, blocked, fewer, items.tail);
    }
  }

  /** The reference nesting of a definition, when it can be expanded. */
  function RankOf(defs: Defs, n: string): nat {
    if n in defs && Schema(defs, {}, defs[n]).Planned? then Schema(defs, {}, defs[n]).bill.span.refs else 0
  }

  ghost predicate Expandable(defs: Defs, names: set<string>) {
    forall n :: n in names ==> n in defs && Schema(defs, {}, defs[n]).Planned?
  }

  ghost predicate Shallower(defs: Defs, names: set<string>, refs: nat) {
    forall n :: n in names ==> RankOf(defs, n) < refs
  }

  lemma {:induction false} PlanRanks(defs: Defs, blocked: set<string>, s: Json)
    requires Schema(defs, blocked, s).Planned?
    ensures Sound(defs, s)
    ensures Expandable(defs, Schema(defs, blocked, s).bill.names)
    ensures Shallower(defs, Refs(s), Schema(defs, blocked, s).bill.span.refs)
    decreases defs.Keys - blocked, s, 0
  {
    if Get(s.members, "$ref").Some? {
      var name := Target(defs, s.members).value;
      PlanRanks(defs, blocked + {name}, defs[name]);
      Unblocked(defs, blocked + {name}, {}, defs[name]);
    } else {
      PlanRanksKeywords(defs, blocked, s.members);
    }
  }

  lemma {:induction false} PlanRanksKeywords(defs: Defs, blocked: set<string>, m: Members)
    requires Keywords(defs, blocked, m).Planned?
    ensures SoundKeywords(defs, m)
    ensures Expandable(defs, Keywords(defs, blocked, m).bill.names)
    ensures Shallower(defs, KeywordRefs(m), Keywords(defs, blocked, m).bill.span.refs)
    decreases defs.Keys - blocked, m, 0
  {
    if m.NoMembers? {
    } else {
      PlanRanksKeywords(defs, blocked, m.rest);
      PlanRanksKeyword(defs, blocked, m.name, m.value);
    }
  }

  lemma {:induction false} PlanRanksKeyword(defs: Defs, blocked: set<string>, name: string, value: Json)
    requires Keyword(defs, blocked, name, value).Planned?
    ensures SoundKeywords(defs, Member(name, value, NoMembers))
    ensures Expandable(defs, Keyword(defs, blocked, name, value).bill.names)
    ensures Shallower(defs, KeywordRefs(Member(name, value, NoMembers)),
        Keyword(defs, blocked, name, value).bill.span.refs)
    decreases defs.Keys - blocked, value, 1
  {
    if name == "properties" {
      PlanRanksChildren(defs, blocked, value.members);
    } else if name == "items" || (name == "additionalProperties" && value.Obj?) {
      PlanRanks(defs, blocked, value);
    } else if name == "oneOf" {
      PlanRanksBranches(defs, blocked, value.items);
    }
  }

  lemma {:induction false} PlanRanksChildren(defs: Defs, blocked: set<string>, m: Members)
    requires Children(defs, blocked, m).Planned?
    ensures SoundChildren(defs, m)
    ensures Expandable(defs, Children(defs, blocked, m).bill.names)
    ensures Shallower(defs, ChildRefs(m), Children(defs, blocked, m).bill.span.refs)
    decreases defs.Keys - blocked, m, 0
  {
    if m.NoMembers? {
    } else {
      PlanRanks(defs, blocked, m.value);
      PlanRanksChildren(defs, blocked, m.rest);
    }
  }

  lemma {:induction false} PlanRanksBranches(defs: Defs, blocked: set<string>, items: Items)
    requires Branches(defs, blocked, items).Planned?
    ensures SoundBranches(defs, items)
    ensures Expandable(defs, Branches(defs, blocked, items).bill.names)
    ensures Shallower(defs, BranchRefs(items), Branches(defs, blocked, items).bill.span.refs)
    decreases defs.Keys - blocked, items, 0
  {
    if items.NoItems? {
    } else {
      PlanRanks(defs, blocked, items.head);
      PlanRanksBranches(defs, blocked, items.tail);
    }
  }

  /** A ranking that certifies one schema. */
  ghost predicate Certifies(defs: Defs, s: Json, rank: map<string, nat>) {
    Ranking(defs, rank) && Sound(defs, s) && Refs(s) <= rank.Keys
  }

  /**
   Limits aside, a schema expands exactly when every reference reachable from it stands alone, resolves,
   and closes no cycle.
   */
  lemma PossibleIffAcyclic(defs: Defs, s: Json)
    ensures Schema(defs, {}, s).Planned? <==> exists rank :: Certifies(defs, s, rank)
  {
    if Schema(defs, {}, s).Planned? {
      var names := Schema(defs, {}, s).bill.names;
      var rank := map n | n in names :: RankOf(defs, n);
      PlanNames(defs, {}, s);
      PlanRanks(defs, {}, s);
      forall n | n in rank
        ensures n in defs && Sound(defs, defs[n]) && Refs(defs[n]) <= rank.Keys
        ensures forall m :: m in Refs(defs[n]) ==> rank[m] < rank[n]
      {
        PlanRanks(defs, {}, defs[n]);
      }
      assert Certifies(defs, s, rank);
    }
    if exists rank :: Certifies(defs, s, rank) {
      var rank :| Certifies(defs, s, rank);
      var bound := Above(rank, Refs(s));
      RankedPlans(defs, rank, {}, s, bound);
    }
  }

  lemma Above(rank: map<string, nat>, names: set<string>) returns (bound: nat)
    requires names <= rank.Keys
    ensures Below(rank, names, bound)
  {
    if names == {} {
      bound := 0;
    } else {
      var n :| n in names;
      var rest := Above(rank, names - {n});
      bound := Max(rest, rank[n] + 1);
    }
  }
}
