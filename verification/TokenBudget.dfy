/** The deterministic prompt budgeter (workflow/drafting/token_budget.py): required sections
    first, then optional ones greedily by priority. The `note` text is left out. */
module TokenBudget {
  import opened Prelude
  import opened Sorting

  datatype Section = Section(name: string, content: string, required: bool, priority: int)

  datatype BudgetStatus = Fit | Truncated | Blocked

  datatype BudgetResult = BudgetResult(status: BudgetStatus, included: seq<Section>, omitted: seq<Section>, total: int)

  type Estimator = string -> int

  /** `HeuristicTokenEstimator`: about four characters a token. */
  function Heuristic(text: string): int {
    (|text| + 3) / 4
  }

  predicate Before(a: Section, b: Section) {
    a.priority < b.priority || (a.priority == b.priority && LexLe(a.name, b.name))
  }

  lemma BeforePreorder()
    ensures TotalPreorder(Before)
  {
    LexPreorder();
    forall a, b, c | Before(a, b) && Before(b, c) ensures Before(a, c) {
      if a.priority == c.priority {
        LexTransitive(a.name, b.name, c.name);
      }
    }
    forall a, b ensures Before(a, b) || Before(b, a) {
      LexTotal(a.name, b.name);
    }
  }

  /** `_ordered`. */
  function Ordered(sections: seq<Section>): seq<Section> {
    Sort(sections, Before)
  }

  function Required(sections: seq<Section>): seq<Section> {
    Filter(sections, (s: Section) => s.required)
  }

  function Optional(sections: seq<Section>): seq<Section> {
    Filter(sections, (s: Section) => !s.required)
  }

  function Cost(sections: seq<Section>, estimate: Estimator): int {
    if sections == [] then 0
    else Cost(sections[..|sections| - 1], estimate) + estimate(sections[|sections| - 1].content)
  }

  datatype Packing = Packing(included: seq<Section>, omitted: seq<Section>, total: int)

  /** The greedy pass over the optional sections. */
  function Greedy(optional: seq<Section>, start: Packing, budget: int, estimate: Estimator): Packing {
    if optional == [] then start
    else
      var n := |optional| - 1;
      var p := Greedy(optional[..n], start, budget, estimate);
      var cost := estimate(optional[n].content);
      if p.total + cost <= budget
      then Packing(p.included + [optional[n]], p.omitted, p.total + cost)
      else Packing(p.included, p.omitted + [optional[n]], p.total)
  }

  function Pack(sections: seq<Section>, estimate: Estimator, budget: int): Packing {
    var ordered := Ordered(sections);
    Greedy(Optional(ordered), Packing(Required(ordered), [], Cost(Required(ordered), estimate)), budget, estimate)
  }

  /** `apply_budget`. */
  function ApplyBudget(sections: seq<Section>, estimate: Estimator, budget: int): BudgetResult {
    var ordered := Ordered(sections);
    var needed := Cost(Required(ordered), estimate);
    if needed > budget then BudgetResult(Blocked, [], Required(ordered) + Optional(ordered), needed)
    else
      var p := Pack(sections, estimate, budget);
      BudgetResult(if p.omitted != [] then Truncated else Fit, Ordered(p.included), p.omitted, p.total)
  }

  method Apply(sections: seq<Section>, estimate: Estimator, budget: int) returns (r: BudgetResult)
    ensures r == ApplyBudget(sections, estimate, budget)
  {
    var ordered := Ordered(sections);
    var required, optional := Required(ordered), Optional(ordered);
    var needed := 0;
    for i := 0 to |required|
      invariant needed == Cost(required[..i], estimate)
    {
      assert required[..i + 1][..i] == required[..i];
      needed := needed + estimate(required[i].content);
    }
    assert required[..|required|] == required;
    if needed > budget {
      return BudgetResult(Blocked, [], required + optional, needed);
    }
    var included, omitted, total := required, [], needed;
    for i := 0 to |optional|
      invariant Packing(included, omitted, total) == Greedy(optional[..i], Packing(required, [], needed), budget, estimate)
    {
      assert optional[..i + 1][..i] == optional[..i];
      var cost := estimate(optional[i].content);
      if total + cost <= budget {
        included, total := included + [optional[i]], total + cost;
      } else {
        omitted := omitted + [optional[i]];
      }
    }
    assert optional[..|optional|] == optional;
    return BudgetResult(if omitted != [] then Truncated else Fit, Ordered(included), omitted, total);
  }

  // ------------------------------------------------------------------ cost

  lemma {:induction false} CostAppend(a: seq<Section>, b: seq<Section>, estimate: Estimator)
    ensures Cost(a + b, estimate) == Cost(a, estimate) + Cost(b, estimate)
  {
    if b == [] {
      assert a + b == a;
    } else {
      assert (a + b)[..|a + b| - 1] == a + b[..|b| - 1];
      CostAppend(a, b[..|b| - 1], estimate);
    }
  }

  lemma {:induction false} CostInsert(x: Section, s: seq<Section>, estimate: Estimator)
    ensures Cost(Insert(x, s, Before), estimate) == estimate(x.content) + Cost(s, estimate)
  {
    CostAppend([x], s, estimate);
    if s != [] && !Before(x, s[0]) {
      CostInsert(x, s[1..], estimate);
      CostAppend([s[0]], Insert(x, s[1..], Before), estimate);
      CostAppend([s[0]], s[1..], estimate);
      assert s == [s[0]] + s[1..];
    }
  }

  lemma {:induction false} CostOrdered(s: seq<Section>, estimate: Estimator)
    ensures Cost(Ordered(s), estimate) == Cost(s, estimate)
  {
    if s != [] {
      CostOrdered(s[1..], estimate);
      CostInsert(s[0], Ordered(s[1..]), estimate);
      CostAppend([s[0]], s[1..], estimate);
      assert s == [s[0]] + s[1..];
    }
  }

  lemma {:induction false} SplitElements(s: seq<Section>)
    ensures multiset(Required(s)) + multiset(Optional(s)) == multiset(s)
  {
    if s != [] {
      SplitElements(s[1..]);
      assert s == [s[0]] + s[1..];
    }
  }

  // ------------------------------------------------------------------ the greedy pass

  /** Every optional section ends up included or omitted, once. */
  lemma {:induction false} GreedyElements(optional: seq<Section>, start: Packing, budget: int, estimate: Estimator)
    ensures var p := Greedy(optional, start, budget, estimate);
      multiset(p.included) + multiset(p.omitted) == multiset(start.included) + multiset(start.omitted) + multiset(optional)
  {
    if optional != [] {
      var n := |optional| - 1;
      GreedyElements(optional[..n], start, budget, estimate);
      assert optional == optional[..n] + [optional[n]];
      var p, q := Greedy(optional[..n], start, budget, estimate), Greedy(optional, start, budget, estimate);
      assert multiset(q.included) + multiset(q.omitted) == multiset(p.included) + multiset(p.omitted) + multiset{optional[n]};
    }
  }

  lemma {:induction false} GreedyTotal(optional: seq<Section>, start: Packing, budget: int, estimate: Estimator)
    requires start.total <= budget && start.total == Cost(start.included, estimate)
    ensures var p := Greedy(optional, start, budget, estimate);
      p.total <= budget && p.total == Cost(p.included, estimate) && start.included <= p.included
  {
    if optional != [] {
      var n := |optional| - 1;
      GreedyTotal(optional[..n], start, budget, estimate);
      var p := Greedy(optional[..n], start, budget, estimate);
      CostAppend(p.included, [optional[n]], estimate);
      assert Cost([optional[n]], estimate) == estimate(optional[n].content);
    }
  }

  ghost predicate NoNegativeCosts(estimate: Estimator) {
    forall text :: estimate(text) >= 0
  }

  /** Totals only grow, so what did not fit at its turn does not fit at the end. */
  lemma {:induction false} GreedyMaximal(optional: seq<Section>, start: Packing, budget: int, estimate: Estimator, o: Section)
    requires NoNegativeCosts(estimate) && start.omitted == []
    requires o in Greedy(optional, start, budget, estimate).omitted
    ensures (forall s :: s in optional ==> !s.required) ==> !o.required
    ensures Greedy(optional, start, budget, estimate).total + estimate(o.content) > budget
  {
    var n := |optional| - 1;
    var p := Greedy(optional[..n], start, budget, estimate);
    if o in p.omitted {
      GreedyMaximal(optional[..n], start, budget, estimate, o);
    }
  }

  // ------------------------------------------------------------------ the result

  /** Nothing is lost or invented: included and omitted sections are the input. */
  lemma BudgetPartitions(sections: seq<Section>, estimate: Estimator, budget: int)
    ensures var r := ApplyBudget(sections, estimate, budget);
      multiset(r.included) + multiset(r.omitted) == multiset(sections)
  {
    var ordered := Ordered(sections);
    SortElements(sections, Before);
    SplitElements(ordered);
    var start := Packing(Required(ordered), [], Cost(Required(ordered), estimate));
    GreedyElements(Optional(ordered), start, budget, estimate);
    SortElements(Pack(sections, estimate, budget).included, Before);
  }

  lemma {:induction false} CostOfRequired(s: seq<Section>, estimate: Estimator)
    ensures Cost(Required(Ordered(s)), estimate) == Cost(Required(s), estimate)
  {
    if s != [] {
      CostOfRequired(s[1..], estimate);
      RequiredInsert(s[0], Ordered(s[1..]), estimate);
      CostAppend([s[0]], Required(s[1..]), estimate);
    }
  }

  lemma {:induction false} RequiredInsert(x: Section, s: seq<Section>, estimate: Estimator)
    ensures Cost(Required(Insert(x, s, Before)), estimate)
         == Cost(Required(s), estimate) + if x.required then estimate(x.content) else 0
  {
    var required := (t: Section) => t.required;
    if s == [] || Before(x, s[0]) {
      FilterAppend([x], s, required);
      CostAppend(Required([x]), Required(s), estimate);
    } else {
      RequiredInsert(x, s[1..], estimate);
      FilterAppend([s[0]], Insert(x, s[1..], Before), required);
      FilterAppend([s[0]], s[1..], required);
      CostAppend(Required([s[0]]), Required(Insert(x, s[1..], Before)), estimate);
      CostAppend(Required([s[0]]), Required(s[1..]), estimate);
      assert s == [s[0]] + s[1..];
    }
  }

  /** Blocked exactly when the required sections alone are over budget, and then nothing is
      included. Otherwise every required section is included, the total is the exact cost of
      what is included and within budget, and the result is truncated exactly when something
      was omitted. */
  lemma BudgetTotals(sections: seq<Section>, estimate: Estimator, budget: int)
    ensures var r := ApplyBudget(sections, estimate, budget);
      && (r.status == Blocked <==> Cost(Required(sections), estimate) > budget)
      && (r.status == Blocked ==> r.included == [] && r.total == Cost(Required(sections), estimate))
      && (r.status != Blocked ==>
            && r.total == Cost(r.included, estimate) && r.total <= budget
            && (forall s :: s in sections && s.required ==> s in r.included)
            && (r.status == Truncated <==> r.omitted != []))
  {
    var ordered := Ordered(sections);
    CostOfRequired(sections, estimate);
    var start := Packing(Required(ordered), [], Cost(Required(ordered), estimate));
    if start.total <= budget {
      var p := Pack(sections, estimate, budget);
      GreedyTotal(Optional(ordered), start, budget, estimate);
      CostOrdered(p.included, estimate);
      SortElements(p.included, Before);
      SortElements(sections, Before);
      forall s | s in sections && s.required ensures s in p.included {
        FilterMember(ordered, (t: Section) => t.required, s);
        assert s in start.included;
      }
    }
  }

  /** With costs that are never negative no omitted section would still fit. */
  lemma BudgetIsMaximal(sections: seq<Section>, estimate: Estimator, budget: int, o: Section)
    requires NoNegativeCosts(estimate)
    requires var r := ApplyBudget(sections, estimate, budget); r.status != Blocked && o in r.omitted
    ensures var r := ApplyBudget(sections, estimate, budget);
      r.total + estimate(o.content) > budget && !o.required
  {
    var ordered := Ordered(sections);
    var start := Packing(Required(ordered), [], Cost(Required(ordered), estimate));
    forall s | s in Optional(ordered) ensures !s.required {
      FilterMember(ordered, (t: Section) => !t.required, s);
    }
    GreedyMaximal(Optional(ordered), start, budget, estimate, o);
  }

  /** No omitted section of any unblocked result would still fit. */
  ghost predicate Maximal(estimate: Estimator) {
    forall sections, budget, o ::
      var r := ApplyBudget(sections, estimate, budget);
      r.status != Blocked && o in r.omitted ==> r.total + estimate(o.content) > budget
  }

  ghost predicate OneSigned(estimate: Estimator) {
    NoNegativeCosts(estimate) || forall text :: estimate(text) <= 0
  }

  /** Costs that are never positive always fit. */
  lemma {:induction false} CheapAllFit(optional: seq<Section>, start: Packing, budget: int, estimate: Estimator)
    requires start.total <= budget && start.omitted == [] && forall text :: estimate(text) <= 0
    ensures var p := Greedy(optional, start, budget, estimate); p.omitted == [] && p.total <= budget
  {
    if optional != [] {
      CheapAllFit(optional[..|optional| - 1], start, budget, estimate);
    }
  }

  lemma CheapIsMaximal(sections: seq<Section>, estimate: Estimator, budget: int)
    requires forall text :: estimate(text) <= 0
    ensures var r := ApplyBudget(sections, estimate, budget); r.status != Blocked ==> r.omitted == []
  {
    var ordered := Ordered(sections);
    var start := Packing(Required(ordered), [], Cost(Required(ordered), estimate));
    if start.total <= budget {
      CheapAllFit(Optional(ordered), start, budget, estimate);
    }
  }

  /** A positive cost met first is omitted, and a negative one behind it then leaves room. */
  lemma BothSignsLeaveRoom(estimate: Estimator, dear: string, cheap: string)
    requires estimate(dear) > 0 && estimate(cheap) < 0
    ensures var big, small := Section("a", dear, false, 0), Section("b", cheap, false, 1);
      var budget := estimate(dear) - 1;
      var r := ApplyBudget([big, small], estimate, budget);
      r.status != Blocked && big in r.omitted && r.total + estimate(big.content) <= budget
  {
    var big, small := Section("a", dear, false, 0), Section("b", cheap, false, 1);
    var budget := estimate(dear) - 1;
    var sections := [big, small];
    assert Sort([small], Before) == [small];
    assert Ordered(sections) == [big, small];
    var required, optional := (s: Section) => s.required, (s: Section) => !s.required;
    FilterOne(big, required);
    FilterOne(small, required);
    FilterOne(big, optional);
    FilterOne(small, optional);
    FilterAppend([big], [small], required);
    FilterAppend([big], [small], optional);
    assert sections == [big] + [small];
    assert Required(sections) == [] && Optional(sections) == [big, small];
    var start := Packing([], [], 0);
    assert [big, small][..1] == [big];
    assert Greedy([big], start, budget, estimate) == Packing([], [big], 0);
    assert Greedy([big, small], start, budget, estimate) == Packing([small], [big], estimate(cheap));
  }

  /** The budget is filled for every input exactly when the estimator does not take both signs. */
  lemma BudgetIsMaximalExactly(estimate: Estimator)
    ensures Maximal(estimate) <==> OneSigned(estimate)
  {
    if OneSigned(estimate) {
      forall sections, budget, o
        ensures var r := ApplyBudget(sections, estimate, budget);
          r.status != Blocked && o in r.omitted ==> r.total + estimate(o.content) > budget
      {
        var r := ApplyBudget(sections, estimate, budget);
        if r.status != Blocked && o in r.omitted {
          if NoNegativeCosts(estimate) {
            BudgetIsMaximal(sections, estimate, budget, o);
          } else {
            CheapIsMaximal(sections, estimate, budget);
          }
        }
      }
    } else {
      var cheap :| estimate(cheap) < 0;
      var dear :| estimate(dear) > 0;
      BothSignsLeaveRoom(estimate, dear, cheap);
    }
  }

  /** Included sections come out in order, and with unique priorities and names the whole
      result is the same for every order of the input. */
  lemma BudgetForgetsInputOrder(a: seq<Section>, b: seq<Section>, estimate: Estimator, budget: int)
    requires multiset(a) == multiset(b) && UniqueKeys(a, Before)
    ensures ApplyBudget(a, estimate, budget) == ApplyBudget(b, estimate, budget)
    ensures Sorted(ApplyBudget(a, estimate, budget).included, Before)
  {
    BeforePreorder();
    SortForgetsOrder(a, b, Before);
    SortSorted(Pack(a, estimate, budget).included, Before);
  }

  // ------------------------------------------------------------------ who gets the room

  /** Ascending priority numbers; within a priority, alphabetical by name. */
  ghost predicate InPriorityOrder(s: seq<Section>) {
    forall i, j :: 0 <= i < j < |s| ==>
      s[i].priority < s[j].priority || (s[i].priority == s[j].priority && LexLe(s[i].name, s[j].name))
  }

  lemma {:induction false} FilterKeepsOrder(s: seq<Section>, p: Section -> bool)
    requires InPriorityOrder(s)
    ensures InPriorityOrder(Filter(s, p))
  {
    if s != [] {
      FilterKeepsOrder(s[1..], p);
      var rest := Filter(s[1..], p);
      if p(s[0]) {
        forall j | 0 <= j < |rest| ensures s[0].priority < rest[j].priority || (s[0].priority == rest[j].priority && LexLe(s[0].name, rest[j].name)) {
          FilterMember(s[1..], p, rest[j]);
        }
      }
    }
  }

  lemma OrderedByPriority(sections: seq<Section>)
    ensures InPriorityOrder(Ordered(sections))
  {
    BeforePreorder();
    SortSorted(sections, Before);
  }

  /** What a prefix of the optional sections leaves is what the whole pass leaves of it. */
  lemma {:induction false} GreedyPrefix(optional: seq<Section>, k: nat, start: Packing, budget: int, estimate: Estimator)
    requires k < |optional|
    ensures var before, after := Greedy(optional[..k], start, budget, estimate), Greedy(optional[..k + 1], start, budget, estimate);
      && before.included <= after.included <= Greedy(optional, start, budget, estimate).included
      && before.omitted <= after.omitted <= Greedy(optional, start, budget, estimate).omitted
      && (before.total + estimate(optional[k].content) <= budget ==> after.included == before.included + [optional[k]])
      && (before.total + estimate(optional[k].content) > budget ==> after.omitted == before.omitted + [optional[k]])
  {
    var n := |optional| - 1;
    assert optional[..k + 1][..k] == optional[..k];
    if k < n {
      GreedyPrefix(optional[..n], k, start, budget, estimate);
      assert optional[..n][..k] == optional[..k] && optional[..n][..k + 1] == optional[..k + 1];
    } else {
      assert optional[..k + 1] == optional;
    }
  }

  /** Room is given in priority order: the optional sections are looked at by ascending priority,
      then by name, and each is included exactly when it fits beside the required ones and those
      included before it. Required sections come first of all. */
  lemma RoomByPriority(sections: seq<Section>, estimate: Estimator, budget: int, k: nat)
    requires ApplyBudget(sections, estimate, budget).status != Blocked
    requires k < |Optional(Ordered(sections))|
    ensures var order := Optional(Ordered(sections)); var needed := Required(Ordered(sections));
      var before := Greedy(order[..k], Packing(needed, [], Cost(needed, estimate)), budget, estimate);
      var r := ApplyBudget(sections, estimate, budget);
      && InPriorityOrder(order) && multiset(order) == multiset(Optional(sections))
      && InPriorityOrder(r.included)
      && before.total == Cost(before.included, estimate)
      && (forall s :: s in before.included ==> s in r.included) && (forall s :: s in before.omitted ==> s in r.omitted)
      && (forall s :: s in before.included ==> s.required || s in order[..k])
      && (if Cost(before.included, estimate) + estimate(order[k].content) <= budget then order[k] in r.included else order[k] in r.omitted)
  {
    var ordered := Ordered(sections);
    var order, needed := Optional(ordered), Required(ordered);
    var start := Packing(needed, [], Cost(needed, estimate));
    OrderedByPriority(sections);
    FilterKeepsOrder(ordered, (s: Section) => !s.required);
    SortElements(sections, Before);
    OptionalElements(ordered, sections);
    GreedyPrefix(order, k, start, budget, estimate);
    GreedyTotal(order[..k], start, budget, estimate);
    GreedySources(order[..k], start, budget, estimate);
    var before, after := Greedy(order[..k], start, budget, estimate), Greedy(order[..k + 1], start, budget, estimate);
    assert order[..k + 1][..k] == order[..k];
    var p := Greedy(order, start, budget, estimate);
    SortElements(p.included, Before);
    OrderedByPriority(p.included);
    PrefixElements(after.included, p.included);
    PrefixElements(after.omitted, p.omitted);
    PrefixElements(before.included, after.included);
    PrefixElements(before.omitted, after.omitted);
    forall s | s in needed ensures s.required {
      FilterMember(ordered, (t: Section) => t.required, s);
    }
  }

  lemma PrefixElements(a: seq<Section>, b: seq<Section>)
    requires a <= b
    ensures forall s :: s in a ==> s in b
  {
    assert b == a + b[|a|..];
  }

  lemma {:induction false} GreedySources(optional: seq<Section>, start: Packing, budget: int, estimate: Estimator)
    ensures var p := Greedy(optional, start, budget, estimate);
      (forall s :: s in p.included ==> s in start.included || s in optional)
  {
    if optional != [] {
      var n := |optional| - 1;
      GreedySources(optional[..n], start, budget, estimate);
      assert optional == optional[..n] + [optional[n]];
    }
  }

  lemma {:induction false} OptionalElements(a: seq<Section>, b: seq<Section>)
    requires multiset(a) == multiset(b)
    ensures multiset(Optional(a)) == multiset(Optional(b))
  {
    var optional := (s: Section) => !s.required;
    if a == [] {
      NothingLeft(b);
    } else {
      var i := TakeOut(a, b);
      OptionalElements(a[1..], b[..i] + b[i + 1..]);
      FilterAppend(b[..i], b[i + 1..], optional);
      FilterAppend(b[..i], [b[i]] + b[i + 1..], optional);
      FilterAppend([b[i]], b[i + 1..], optional);
      FilterAppend([a[0]], a[1..], optional);
    }
  }

  /** What is left out is listed in the order in which it was looked at; a blocked budget lists
      everything, the required sections first. */
  lemma OmittedInOrder(sections: seq<Section>, estimate: Estimator, budget: int)
    ensures var r := ApplyBudget(sections, estimate, budget); var ordered := Ordered(sections);
      && (r.status != Blocked ==> InPriorityOrder(r.omitted))
      && (r.status == Blocked ==> r.omitted == Required(ordered) + Optional(ordered)
                                  && InPriorityOrder(Required(ordered)) && InPriorityOrder(Optional(ordered)))
  {
    var ordered := Ordered(sections);
    OrderedByPriority(sections);
    FilterKeepsOrder(ordered, (s: Section) => s.required);
    FilterKeepsOrder(ordered, (s: Section) => !s.required);
    GreedyOmitsInOrder(Optional(ordered), Packing(Required(ordered), [], Cost(Required(ordered), estimate)), budget, estimate);
  }

  lemma {:induction false} GreedyOmitsInOrder(optional: seq<Section>, start: Packing, budget: int, estimate: Estimator)
    requires InPriorityOrder(optional) && start.omitted == []
    ensures var omitted := Greedy(optional, start, budget, estimate).omitted;
      InPriorityOrder(omitted) && forall s :: s in omitted ==> s in optional
  {
    if optional != [] {
      var n := |optional| - 1;
      GreedyOmitsInOrder(optional[..n], start, budget, estimate);
      assert optional == optional[..n] + [optional[n]];
      var before := Greedy(optional[..n], start, budget, estimate).omitted;
      forall i | 0 <= i < |before|
        ensures before[i].priority < optional[n].priority || (before[i].priority == optional[n].priority && LexLe(before[i].name, optional[n].name)) {
        assert before[i] in optional[..n];
        var j :| 0 <= j < n && optional[j] == before[i];
      }
    }
  }

  // ------------------------------------------------------------------ the rendered prompt

  function Rendered(sections: seq<Section>): string {
    if sections == [] then "" else Rendered(sections[..|sections| - 1]) + sections[|sections| - 1].content
  }

  /** Rounding up section by section costs at most three characters a section. */
  lemma {:induction false} RenderedCost(sections: seq<Section>)
    ensures |Rendered(sections)| <= 4 * Cost(sections, Heuristic) <= |Rendered(sections)| + 3 * |sections|
  {
    if sections != [] {
      RenderedCost(sections[..|sections| - 1]);
    }
  }

  /** The estimate of the concatenated prompt is at most the total, so it is within budget. */
  lemma PromptWithinBudget(sections: seq<Section>, budget: int)
    requires ApplyBudget(sections, Heuristic, budget).status != Blocked
    ensures var r := ApplyBudget(sections, Heuristic, budget);
      Heuristic(Rendered(r.included)) <= r.total <= budget
  {
    BudgetTotals(sections, Heuristic, budget);
    RenderedCost(ApplyBudget(sections, Heuristic, budget).included);
  }
}
