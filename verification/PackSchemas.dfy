/** All emitted schemas of one pack expanded under a single shared budget. */
module PackSchemas {
  import opened Options
  import opened Json
  import opened Expansion
  import opened ExpansionLaws
  import opened Expander
  import opened ExpansionMeaning
  import opened SchemaMeaning
  import opened Values

  function Roots(defs: Defs, roots: seq<Json>): Outcome<seq<Json>> {
    if roots == [] then Planned([], NOTHING)
    else
      var before, last := Roots(defs, roots[..|roots| - 1]), Schema(defs, {}, roots[|roots| - 1]);
      if before.Rejected? || last.Rejected? then Rejected
      else Planned(before.out + [last.out], Join(before.bill, last.bill))
  }

  /** The roots done so far: their outputs, and the account they leave. */
  ghost predicate Paid(start: Account, defs: Defs, done: seq<Json>, outputs: seq<Json>, now: Account) {
    Settles(start, 0, Roots(defs, done), Some(outputs), now)
  }

  lemma {:induction false} PrefixCovered(start: Account, defs: Defs, roots: seq<Json>, i: nat)
    requires i <= |roots| && Roots(defs, roots).Planned? && Covers(start, 0, Roots(defs, roots).bill)
    ensures Roots(defs, roots[..i]).Planned? && Covers(start, 0, Roots(defs, roots[..i]).bill)
    decreases |roots| - i
  {
    if i == |roots| {
      assert roots[..i] == roots;
    } else {
      PrefixCovered(start, defs, roots, i + 1);
      assert roots[..i + 1][..i] == roots[..i];
    }
  }

  lemma RootStep(start: Account, defs: Defs, roots: seq<Json>, i: nat, outputs: seq<Json>, r: Option<Json>,
                 now: Account, after: Account)
    requires i < |roots| && Paid(start, defs, roots[..i], outputs, now)
    requires Settles(now, 0, Schema(defs, {}, roots[i]), r, after)
    ensures r.Some? ==> Paid(start, defs, roots[..i + 1], outputs + [r.value], after)
    ensures r.None? ==> Settles(start, 0, Roots(defs, roots), None, after)
  {
    assert roots[..i + 1][..i] == roots[..i];
    ChargedFirst(start, 0, Roots(defs, roots[..i]).bill, Schema(defs, {}, roots[i]), r, after);
    if r.None? && Roots(defs, roots).Planned? && Covers(start, 0, Roots(defs, roots).bill) {
      PrefixCovered(start, defs, roots, i + 1);
    }
  }

  lemma NonePaid(start: Account, defs: Defs, roots: seq<Json>)
    requires Covers(start, 0, NOTHING)
    ensures Paid(start, defs, roots[..0], [], start)
  {
    SpendNothing(start);
  }

  method ExpandRoots(expander: SchemaExpander, roots: seq<Json>) returns (r: Option<seq<Json>>)
    requires expander.stack == [] && expander.nodes <= MAX_NODES
    modifies expander
    ensures Settles(old(expander.State()), 0, Roots(expander.definitions, roots), r, expander.State())
  {
    var outputs := [];
    ghost var start, now := expander.State(), expander.State();
    NonePaid(start, expander.definitions, roots);
    for i := 0 to |roots|
      invariant expander.stack == [] && expander.nodes <= MAX_NODES && now == expander.State()
      invariant Paid(start, expander.definitions, roots[..i], outputs, now)
    {
      assert Elements(expander.stack) == {};
      var expanded := expander.Expand(roots[i], 0);
      RootStep(start, expander.definitions, roots, i, outputs, expanded, now, expander.State());
      if expanded.None? { return None; }
      outputs := outputs + [expanded.value];
      now := expander.State();
    }
    assert roots[..|roots|] == roots;
    r := Some(outputs);
  }

  /** The limits that all roots share. */
  predicate Within(plan: Outcome<seq<Json>>) {
    && plan.Planned?
    && plan.bill.cost.calls <= MAX_NODES && plan.bill.cost.bytes <= MAX_BYTES
    && plan.bill.span.height <= MAX_DEPTH && plan.bill.span.refs <= MAX_DEPTH
  }

  /** A hundred thousand visits, sixteen mebibytes, 32 levels of schemas and as many of references. */
  lemma LimitsSpelled(plan: Outcome<seq<Json>>)
    ensures Within(plan) <==>
            && plan.Planned?
            && plan.bill.cost.calls <= 100000 && plan.bill.cost.bytes <= 16777216
            && plan.bill.span.height <= 32 && plan.bill.span.refs <= 32
  {
  }

  /** Every set closed under references that holds the roots' own references holds all definitions. */
  ghost predicate AllReachable(defs: Defs, roots: seq<Json>) {
    forall names :: Closed(defs, names) && OwnNames(roots, names) ==> defs.Keys <= names
  }

  /**
   Succeeds exactly when every definition has an identifier for a name, the roots expand within the shared
   limits, and every definition is reachable from some root; counting the used names decides the last.
   */
  method ExpandPackSchemas(definitions: Defs, roots: seq<Json>) returns (r: Option<seq<Json>>)
    ensures r.Some? <==>
              && (forall name :: name in definitions ==> ValidIdentifier(name))
              && Within(Roots(definitions, roots))
              && AllReachable(definitions, roots)
    ensures r.Some? ==> r.value == Roots(definitions, roots).out
  {
    if exists name :: name in definitions && !ValidIdentifier(name) { return None; }
    var expander := new SchemaExpander(definitions);
    r := ExpandRoots(expander, roots);
    if r.None? { return; }
    CountDecides(definitions, roots);
    if |expander.used| != |definitions.Keys| { r := None; }
  }

  lemma CountDecides(defs: Defs, roots: seq<Json>)
    requires Roots(defs, roots).Planned?
    ensures |Roots(defs, roots).bill.names| == |defs.Keys| <==> AllReachable(defs, roots)
  {
    var names := Roots(defs, roots).bill.names;
    RootNamesClosed(defs, roots);
    assert names <= defs.Keys;
    if |names| == |defs.Keys| {
      SameSize(names, defs.Keys);
      forall larger | Closed(defs, larger) && OwnNames(roots, larger) ensures defs.Keys <= larger {
        RootNamesLeast(defs, roots, larger);
      }
    }
    if AllReachable(defs, roots) { assert names == defs.Keys; }
  }

  lemma SameSize(a: set<string>, b: set<string>)
    requires a <= b && |a| == |b|
    ensures a == b
  {
    assert |b - a| == |b| - |a|;
  }

  ghost predicate OwnNames(roots: seq<Json>, names: set<string>) {
    forall i :: 0 <= i < |roots| ==> Refs(roots[i]) <= names
  }

  /** The names used by all roots together are closed and hold every root's references ... */
  lemma {:induction false} RootNamesClosed(defs: Defs, roots: seq<Json>)
    requires Roots(defs, roots).Planned?
    ensures Closed(defs, Roots(defs, roots).bill.names) && OwnNames(roots, Roots(defs, roots).bill.names)
  {
    if roots == [] {
    } else {
      var k := |roots| - 1;
      var before, last := Roots(defs, roots[..k]).bill.names, Schema(defs, {}, roots[k]).bill.names;
      RootNamesClosed(defs, roots[..k]);
      PlanNames(defs, {}, roots[k]);
      assert Roots(defs, roots).bill.names == before + last;
      ClosedTogether(defs, before, last);
      forall i | 0 <= i < |roots| ensures Refs(roots[i]) <= before + last {
        if i < k { assert Refs(roots[..k][i]) <= before; }
      }
    }
  }

  lemma ClosedTogether(defs: Defs, a: set<string>, b: set<string>)
    requires Closed(defs, a) && Closed(defs, b)
    ensures Closed(defs, a + b)
  {
  }

  /** ... and are the least such set. */
  lemma {:induction false} RootNamesLeast(defs: Defs, roots: seq<Json>, names: set<string>)
    requires Roots(defs, roots).Planned?
    requires Closed(defs, names) && OwnNames(roots, names)
    ensures Roots(defs, roots).bill.names <= names
  {
    if roots == [] {
    } else {
      assert OwnNames(roots[..|roots| - 1], names);
      RootNamesLeast(defs, roots[..|roots| - 1], names);
      NamesLeast(defs, {}, roots[|roots| - 1], names);
    }
  }

  function TotalSize(outputs: seq<Json>): nat {
    if outputs == [] then 0 else TotalSize(outputs[..|outputs| - 1]) + Size(outputs[|outputs| - 1])
  }

  /** All outputs together stay within the byte budget, however often a definition is repeated. */
  lemma {:induction false} TotalBytes(defs: Defs, roots: seq<Json>)
    requires Roots(defs, roots).Planned?
    ensures TotalSize(Roots(defs, roots).out) <= Roots(defs, roots).bill.cost.bytes
    ensures Within(Roots(defs, roots)) ==> TotalSize(Roots(defs, roots).out) <= MAX_BYTES
  {
    if roots == [] {
    } else {
      var k := |roots| - 1;
      TotalBytes(defs, roots[..k]);
      PlanBytes(defs, {}, roots[k]);
      var before, last := Roots(defs, roots[..k]), Schema(defs, {}, roots[k]);
      assert (before.out + [last.out])[..|before.out|] == before.out;
    }
  }

  /** Each output is free of references and accepts exactly what its root accepts under the definitions. */
  lemma {:induction false} PackPreserved(defs: Defs, roots: seq<Json>, i: nat, v: Value, fuel: nat, how: Reading)
    requires Roots(defs, roots).Planned? && i < |roots| && Roots(defs, roots).bill.span.refs <= fuel
    ensures var outputs := Roots(defs, roots).out;
            && |outputs| == |roots| && RefFree(outputs[i])
            && Meaning(map[], outputs[i], v, 0, how) == Meaning(defs, roots[i], v, fuel, how)
  {
    var k := |roots| - 1;
    OutputPerRoot(defs, roots[..k]);
    if i < k {
      PackPreserved(defs, roots[..k], i, v, fuel, how);
    } else {
      PlanRefFree(defs, {}, roots[k]);
      MeaningPreserved(defs, {}, roots[k], v, fuel, how);
    }
  }

  lemma {:induction false} OutputPerRoot(defs: Defs, roots: seq<Json>)
    requires Roots(defs, roots).Planned?
    ensures |Roots(defs, roots).out| == |roots|
  {
    if roots == [] {
    } else {
      OutputPerRoot(defs, roots[..|roots| - 1]);
    }
  }
}
