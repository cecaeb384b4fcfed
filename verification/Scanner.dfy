/**
 backend/pkg/clusterdoctor/scanner.go: Run evaluates the enabled rules grouped by category,
 polling its context before each, and degrades gracefully. Rules are known by their index.
 */
module Scanner {

  datatype Rule = Rule(category: string, enabled: bool)

  /** What GetCheck and runCheckSafely give for a rule: findings, or a reason to skip it. */
  datatype Outcome = NotRegistered | CheckFailed | Raws(raws: seq<string>)

  datatype Finding = Finding(rule: nat, raw: string)

  datatype ScanStatus = ScanRunning | ScanCompleted | ScanPartial

  // ------------------------------------------------------------ the grouped order

  /** Each category once, in first-seen order; disabled rules count. */
  function CategoryOrder(rules: seq<Rule>): seq<string>
  {
    if rules == [] then []
    else
      var order := CategoryOrder(rules[..|rules| - 1]);
      var c := rules[|rules| - 1].category;
      if c in order then order else order + [c]
  }

  predicate Member(r: Rule, category: string)
  {
    r.enabled && r.category == category
  }

  /** Indices below n of the enabled rules of a category. */
  function InCategory(rules: seq<Rule>, category: string, n: nat): seq<nat>
    requires n <= |rules|
  {
    if n == 0 then []
    else InCategory(rules, category, n - 1) + if Member(rules[n - 1], category) then [n - 1] else []
  }

  function GroupedBy(rules: seq<Rule>, order: seq<string>): seq<nat>
  {
    if order == [] then []
    else GroupedBy(rules, order[..|order| - 1]) + InCategory(rules, order[|order| - 1], |rules|)
  }

  function Grouped(rules: seq<Rule>): seq<nat>
  {
    GroupedBy(rules, CategoryOrder(rules))
  }

  /** Position of the first rule of a category. */
  function Rank(rules: seq<Rule>, category: string): nat
  {
    if rules == [] then 0
    else if rules[0].category == category then 0
    else 1 + Rank(rules[1..], category)
  }

  predicate InRange(xs: seq<nat>, n: nat)
  {
    forall a :: 0 <= a < |xs| ==> xs[a] < n
  }

  predicate Before(rules: seq<Rule>, i: nat, j: nat)
    requires i < |rules| && j < |rules|
  {
    var a, b := rules[i].category, rules[j].category;
    if a == b then i < j else Rank(rules, a) < Rank(rules, b)
  }

  lemma {:induction false} RankFirst(rules: seq<Rule>, category: string)
    ensures Rank(rules, category) <= |rules|
    ensures Rank(rules, category) < |rules| ==> rules[Rank(rules, category)].category == category
    ensures forall i :: 0 <= i < Rank(rules, category) ==> rules[i].category != category
  {
    if rules != [] && rules[0].category != category {
      RankFirst(rules[1..], category);
      assert forall i :: 0 < i < |rules| ==> rules[i] == rules[1..][i - 1];
    }
  }

  /** Later rules do not move the first occurrence. */
  lemma RankOfPrefix(rules: seq<Rule>, category: string)
    requires rules != [] && Rank(rules[..|rules| - 1], category) < |rules| - 1
    ensures Rank(rules, category) == Rank(rules[..|rules| - 1], category)
  {
    RankFirst(rules, category);
    RankFirst(rules[..|rules| - 1], category);
    var r := Rank(rules[..|rules| - 1], category);
    assert rules[r].category == category;
    assert forall i :: 0 <= i < r ==> rules[..|rules| - 1][i] == rules[i];
  }

  ghost predicate Occurs(rules: seq<Rule>, category: string)
  {
    exists r :: r in rules && r.category == category
  }

  lemma OccursSnoc(rules: seq<Rule>, category: string)
    requires rules != []
    ensures Occurs(rules, category) <==>
      Occurs(rules[..|rules| - 1], category) || rules[|rules| - 1].category == category
  {
  }

  lemma RankOfOccurring(rules: seq<Rule>, category: string)
    ensures Rank(rules, category) < |rules| <==> Occurs(rules, category)
  {
  }

  lemma RankOfNew(rules: seq<Rule>)
    requires rules != [] && !Occurs(rules[..|rules| - 1], rules[|rules| - 1].category)
    ensures Rank(rules, rules[|rules| - 1].category) == |rules| - 1
  {
    var n, c := |rules| - 1, rules[|rules| - 1].category;
    RankFirst(rules, c);
    forall i | 0 <= i < n ensures rules[i].category != c {
      assert rules[i] in rules[..n];
    }
  }

  ghost predicate RanksAscend(rules: seq<Rule>, order: seq<string>)
  {
    forall a, b :: 0 <= a < b < |order| ==> Rank(rules, order[a]) < Rank(rules, order[b])
  }

  lemma {:induction false} CategoryOrderSorted(rules: seq<Rule>)
    ensures forall c :: c in CategoryOrder(rules) <==> Occurs(rules, c)
    ensures RanksAscend(rules, CategoryOrder(rules))
    decreases |rules|
  {
    if rules != [] {
      var n := |rules| - 1;
      var before := CategoryOrder(rules[..n]);
      CategoryOrderSorted(rules[..n]);
      forall d ensures d in CategoryOrder(rules) <==> Occurs(rules, d) {
        OccursSnoc(rules, d);
      }
      forall d | d in before ensures Rank(rules, d) == Rank(rules[..n], d) < n {
        RankOfOccurring(rules[..n], d);
        RankOfPrefix(rules, d);
      }
      forall a, b | 0 <= a < b < |before| ensures Rank(rules, before[a]) < Rank(rules, before[b]) < n {
        assert before[a] in before && before[b] in before;
      }
      forall a | 0 <= a < |before| ensures Rank(rules, before[a]) < n {
        assert before[a] in before;
      }
      if rules[n].category !in before {
        RankOfNew(rules);
      }
    }
  }

  predicate Ascending(s: seq<nat>)
  {
    forall a, b :: 0 <= a < b < |s| ==> s[a] < s[b]
  }

  lemma {:induction false} InCategoryExact(rules: seq<Rule>, category: string, n: nat)
    requires n <= |rules|
    ensures InRange(InCategory(rules, category, n), n)
    ensures forall i: nat :: i in InCategory(rules, category, n) <==> i < n && Member(rules[i], category)
    ensures Ascending(InCategory(rules, category, n))
  {
    if n > 0 {
      InCategoryExact(rules, category, n - 1);
      var s0 := InCategory(rules, category, n - 1);
      assert forall a :: 0 <= a < |s0| ==> s0[a] < n - 1;
    }
  }

  lemma {:induction false} GroupedByExact(rules: seq<Rule>, order: seq<string>)
    ensures InRange(GroupedBy(rules, order), |rules|)
    ensures forall i: nat :: i in GroupedBy(rules, order) <==>
      i < |rules| && rules[i].enabled && rules[i].category in order
    decreases |order|
  {
    if order != [] {
      var n := |order| - 1;
      GroupedByExact(rules, order[..n]);
      InCategoryExact(rules, order[n], |rules|);
      assert order == order[..n] + [order[n]];
    }
  }

  ghost predicate Ordered(rules: seq<Rule>, g: seq<nat>)
  {
    InRange(g, |rules|) && forall a, b :: 0 <= a < b < |g| ==> Before(rules, g[a], g[b])
  }

  lemma OrderedConcat(rules: seq<Rule>, g: seq<nat>, h: seq<nat>)
    requires Ordered(rules, g) && Ordered(rules, h)
    requires forall a, b :: 0 <= a < |g| && 0 <= b < |h| ==> Before(rules, g[a], h[b])
    ensures Ordered(rules, g + h)
  {
  }

  lemma InCategoryOrdered(rules: seq<Rule>, category: string)
    ensures Ordered(rules, InCategory(rules, category, |rules|))
    ensures forall i: nat :: i in InCategory(rules, category, |rules|) ==> rules[i].category == category
  {
    InCategoryExact(rules, category, |rules|);
    var h := InCategory(rules, category, |rules|);
    forall a | 0 <= a < |h| ensures rules[h[a]].category == category {
      assert h[a] in h;
    }
  }

  /** Rules of earlier categories come before rules of a later one. */
  lemma EarlierCategoriesFirst(rules: seq<Rule>, order: seq<string>, n: nat, i: nat, j: nat)
    requires n < |order| && i < |rules| && j < |rules|
    requires RanksAscend(rules, order)
    requires rules[i].category in order[..n] && rules[j].category == order[n]
    ensures Before(rules, i, j)
  {
  }

  lemma {:induction false} GroupedByOrdered(rules: seq<Rule>, order: seq<string>)
    requires RanksAscend(rules, order)
    ensures Ordered(rules, GroupedBy(rules, order))
    decreases |order|
  {
    GroupedByExact(rules, order);
    if order != [] {
      var n := |order| - 1;
      GroupedByOrdered(rules, order[..n]);
      GroupedByExact(rules, order[..n]);
      InCategoryOrdered(rules, order[n]);
      var g, h := GroupedBy(rules, order[..n]), InCategory(rules, order[n], |rules|);
      forall a, b | 0 <= a < |g| && 0 <= b < |h| ensures Before(rules, g[a], h[b]) {
        assert g[a] in g && h[b] in h;
        EarlierCategoriesFirst(rules, order, n, g[a], h[b]);
      }
      OrderedConcat(rules, g, h);
    }
  }

  /**
   The grouped order names every enabled rule exactly once, categories in order of first
   appearance and rules of a category in their original order. This determines it.
   */
  lemma GroupedOrder(rules: seq<Rule>)
    ensures forall i: nat :: i in Grouped(rules) <==> i < |rules| && rules[i].enabled
    ensures Ordered(rules, Grouped(rules))
    ensures forall a, b :: 0 <= a < b < |Grouped(rules)| ==> Grouped(rules)[a] != Grouped(rules)[b]
  {
    CategoryOrderSorted(rules);
    GroupedByExact(rules, CategoryOrder(rules));
    GroupedByOrdered(rules, CategoryOrder(rules));
    forall i: nat | i < |rules| ensures rules[i].category in CategoryOrder(rules) {
      assert rules[i] in rules;
    }
  }

  // ------------------------------------------------------------ what a scan reports

  function FindingsOf(outcomes: seq<Outcome>, evaluated: seq<nat>): seq<Finding>
    requires InRange(evaluated, |outcomes|)
  {
    if evaluated == [] then []
    else
      var i := evaluated[|evaluated| - 1];
      FindingsOf(outcomes, evaluated[..|evaluated| - 1]) +
      if outcomes[i].Raws? then seq(|outcomes[i].raws|, k requires 0 <= k < |outcomes[i].raws| =>
                                      Finding(i, outcomes[i].raws[k]))
      else []
  }

  function SkippedOf(outcomes: seq<Outcome>, evaluated: seq<nat>): nat
    requires InRange(evaluated, |outcomes|)
  {
    if evaluated == [] then 0
    else
      var i := evaluated[|evaluated| - 1];
      SkippedOf(outcomes, evaluated[..|evaluated| - 1]) + if outcomes[i].Raws? then 0 else 1
  }

  /** Findings in order of evaluation; every other evaluated rule counted as skipped. */
  ghost predicate Reported(outcomes: seq<Outcome>, evaluated: seq<nat>, findings: seq<Finding>, skipped: nat)
  {
    && InRange(evaluated, |outcomes|)
    && findings == FindingsOf(outcomes, evaluated) && skipped == SkippedOf(outcomes, evaluated)
  }

  function RawsOf(o: Outcome): seq<string>
  {
    if o.Raws? then o.raws else []
  }

  /** How many raw findings the evaluated rules have among them. */
  function RawsIn(outcomes: seq<Outcome>, evaluated: seq<nat>): nat
    requires InRange(evaluated, |outcomes|)
  {
    if evaluated == [] then 0
    else RawsIn(outcomes, evaluated[..|evaluated| - 1]) + |RawsOf(outcomes[evaluated[|evaluated| - 1]])|
  }

  /** The place of raw finding k of the a-th evaluated rule: behind all of the rules before it. */
  function Place(outcomes: seq<Outcome>, evaluated: seq<nat>, a: nat, k: nat): nat
    requires InRange(evaluated, |outcomes|) && a <= |evaluated|
  {
    RawsIn(outcomes, evaluated[..a]) + k
  }

  /** Raw finding k of the a-th evaluated rule exists. */
  predicate Raw(outcomes: seq<Outcome>, evaluated: seq<nat>, a: nat, k: nat)
    requires InRange(evaluated, |outcomes|)
  {
    a < |evaluated| && k < |RawsOf(outcomes[evaluated[a]])|
  }

  /** Some raw finding belongs there. */
  ghost predicate Filled(outcomes: seq<Outcome>, evaluated: seq<nat>, p: nat)
    requires InRange(evaluated, |outcomes|)
  {
    exists a: nat, k: nat :: Raw(outcomes, evaluated, a, k) && p == Place(outcomes, evaluated, a, k)
  }

  /** The evaluated rules without a registered check, or whose check failed. */
  function Silent(outcomes: seq<Outcome>, evaluated: seq<nat>): set<nat>
    requires InRange(evaluated, |outcomes|)
  {
    set a: nat | a < |evaluated| && !outcomes[evaluated[a]].Raws?
  }

  /**
   Every raw finding of every evaluated rule is in its place, places follow the order of
   evaluation and then of the rule's findings, and there are no other places; the rules
   skipped are those without an outcome to report.
   */
  ghost predicate InFull(outcomes: seq<Outcome>, evaluated: seq<nat>, findings: seq<Finding>, skipped: nat)
  {
    && InRange(evaluated, |outcomes|)
    && (forall a: nat, k: nat :: Raw(outcomes, evaluated, a, k) ==>
          var p := Place(outcomes, evaluated, a, k);
          p < |findings| && findings[p] == Finding(evaluated[a], outcomes[evaluated[a]].raws[k]))
    && (forall p: nat :: p < |findings| ==> Filled(outcomes, evaluated, p))
    && (forall a: nat, k: nat, b: nat, m: nat ::
          Raw(outcomes, evaluated, a, k) && Raw(outcomes, evaluated, b, m) && (a < b || (a == b && k < m)) ==>
          Place(outcomes, evaluated, a, k) < Place(outcomes, evaluated, b, m))
    && skipped == |Silent(outcomes, evaluated)|
  }

  lemma {:induction false} RawsInGrows(outcomes: seq<Outcome>, evaluated: seq<nat>, a: nat, b: nat)
    requires InRange(evaluated, |outcomes|) && a <= b <= |evaluated|
    ensures RawsIn(outcomes, evaluated[..a]) <= RawsIn(outcomes, evaluated[..b])
    ensures a < b ==>
      RawsIn(outcomes, evaluated[..a]) + |RawsOf(outcomes[evaluated[a]])| <= RawsIn(outcomes, evaluated[..b])
    decreases b
  {
    if a < b {
      RawsInGrows(outcomes, evaluated, a, b - 1);
      assert evaluated[..b][..b - 1] == evaluated[..b - 1];
    }
  }

  lemma PlacesAscend(outcomes: seq<Outcome>, evaluated: seq<nat>, a: nat, k: nat, b: nat, m: nat)
    requires InRange(evaluated, |outcomes|)
    requires Raw(outcomes, evaluated, a, k) && Raw(outcomes, evaluated, b, m) && (a < b || (a == b && k < m))
    ensures Place(outcomes, evaluated, a, k) < Place(outcomes, evaluated, b, m)
  {
    RawsInGrows(outcomes, evaluated, a, b);
  }

  lemma {:induction false} FindingAt(outcomes: seq<Outcome>, evaluated: seq<nat>, a: nat, k: nat)
    requires InRange(evaluated, |outcomes|) && Raw(outcomes, evaluated, a, k)
    ensures |FindingsOf(outcomes, evaluated)| == RawsIn(outcomes, evaluated)
    ensures var p := Place(outcomes, evaluated, a, k);
      && p < |FindingsOf(outcomes, evaluated)|
      && FindingsOf(outcomes, evaluated)[p] == Finding(evaluated[a], outcomes[evaluated[a]].raws[k])
    decreases |evaluated|
  {
    var n := |evaluated| - 1;
    FindingsCounted(outcomes, evaluated[..n]);
    if a < n {
      FindingAt(outcomes, evaluated[..n], a, k);
      assert evaluated[..n][..a] == evaluated[..a];
    }
  }

  lemma {:induction false} FindingsCounted(outcomes: seq<Outcome>, evaluated: seq<nat>)
    requires InRange(evaluated, |outcomes|)
    ensures |FindingsOf(outcomes, evaluated)| == RawsIn(outcomes, evaluated)
    decreases |evaluated|
  {
    if evaluated != [] {
      FindingsCounted(outcomes, evaluated[..|evaluated| - 1]);
    }
  }

  lemma {:induction false} PlaceTaken(outcomes: seq<Outcome>, evaluated: seq<nat>, p: nat) returns (a: nat, k: nat)
    requires InRange(evaluated, |outcomes|) && p < RawsIn(outcomes, evaluated)
    ensures Raw(outcomes, evaluated, a, k) && p == Place(outcomes, evaluated, a, k)
    decreases |evaluated|
  {
    var n := |evaluated| - 1;
    var before := RawsIn(outcomes, evaluated[..n]);
    if p < before {
      a, k := PlaceTaken(outcomes, evaluated[..n], p);
      assert evaluated[..n][..a] == evaluated[..a];
    } else {
      a, k := n, p - before;
    }
  }

  lemma SilentSnoc(outcomes: seq<Outcome>, evaluated: seq<nat>)
    requires InRange(evaluated, |outcomes|) && evaluated != []
    ensures var n := |evaluated| - 1;
      && Silent(outcomes, evaluated)
        == Silent(outcomes, evaluated[..n]) + (if outcomes[evaluated[n]].Raws? then {} else {n})
      && n !in Silent(outcomes, evaluated[..n])
  {
  }

  lemma {:induction false} SkippedCounted(outcomes: seq<Outcome>, evaluated: seq<nat>)
    requires InRange(evaluated, |outcomes|)
    ensures SkippedOf(outcomes, evaluated) == |Silent(outcomes, evaluated)|
    decreases |evaluated|
  {
    if evaluated == [] {
      assert Silent(outcomes, evaluated) == {};
    } else {
      SkippedCounted(outcomes, evaluated[..|evaluated| - 1]);
      SilentSnoc(outcomes, evaluated);
    }
  }

  lemma ReportedInFull(outcomes: seq<Outcome>, evaluated: seq<nat>, findings: seq<Finding>, skipped: nat)
    requires Reported(outcomes, evaluated, findings, skipped)
    ensures InFull(outcomes, evaluated, findings, skipped)
  {
    forall a: nat, k: nat | Raw(outcomes, evaluated, a, k)
      ensures var p := Place(outcomes, evaluated, a, k);
        p < |findings| && findings[p] == Finding(evaluated[a], outcomes[evaluated[a]].raws[k])
    {
      FindingAt(outcomes, evaluated, a, k);
    }
    FindingsCounted(outcomes, evaluated);
    forall p: nat | p < |findings| ensures Filled(outcomes, evaluated, p) {
      var a, k := PlaceTaken(outcomes, evaluated, p);
    }
    forall a: nat, k: nat, b: nat, m: nat |
      Raw(outcomes, evaluated, a, k) && Raw(outcomes, evaluated, b, m) && (a < b || (a == b && k < m))
      ensures Place(outcomes, evaluated, a, k) < Place(outcomes, evaluated, b, m)
    {
      PlacesAscend(outcomes, evaluated, a, k, b, m);
    }
    SkippedCounted(outcomes, evaluated);
  }

  lemma {:induction false} InCategoryGrows(rules: seq<Rule>, category: string, i: nat, n: nat)
    requires i <= n <= |rules|
    ensures InCategory(rules, category, i) <= InCategory(rules, category, n)
  {
    if i < n {
      InCategoryGrows(rules, category, i, n - 1);
    }
  }

  lemma {:induction false} GroupedByGrows(rules: seq<Rule>, order: seq<string>, k: nat)
    requires k <= |order|
    ensures GroupedBy(rules, order[..k]) <= GroupedBy(rules, order)
    decreases |order| - k
  {
    if k == |order| {
      assert order[..k] == order;
    } else {
      GroupedByGrows(rules, order, k + 1);
      assert order[..k + 1][..k] == order[..k];
    }
  }

  /** Progress inside category k, up to rule i, is a prefix of the whole order. */
  lemma ProgressIsPrefix(rules: seq<Rule>, order: seq<string>, k: nat, i: nat)
    requires k < |order| && i <= |rules|
    ensures GroupedBy(rules, order[..k]) + InCategory(rules, order[k], i) <= GroupedBy(rules, order)
  {
    InCategoryGrows(rules, order[k], i, |rules|);
    GroupedByGrows(rules, order, k + 1);
    assert order[..k + 1][..k] == order[..k];
  }

  // ------------------------------------------------------------ in place

  /** context.Context: Err may turn non-nil between polls, and then stays so. */
  class Context {
    var done: bool

    method Err() returns (e: bool)
      modifies this
      ensures e == done && (old(done) ==> done)
    {
      var now: bool := *;
      done := done || now;
      e := done;
    }
  }

  method Categories(rules: seq<Rule>) returns (order: seq<string>)
    ensures order == CategoryOrder(rules)
  {
    var seen: set<string> := {};
    order := [];
    for i := 0 to |rules|
      invariant order == CategoryOrder(rules[..i])
      invariant forall c :: c in seen <==> c in order
    {
      assert rules[..i + 1][..i] == rules[..i];
      if rules[i].category !in seen {
        seen := seen + {rules[i].category};
        order := order + [rules[i].category];
      }
    }
    assert rules[..|rules|] == rules;
  }

  /** Appends the findings of one rule, or counts it as skipped. */
  method Evaluate(outcomes: seq<Outcome>, i: nat, findings: seq<Finding>, skipped: nat, ghost evaluated: seq<nat>)
    returns (findings': seq<Finding>, skipped': nat)
    requires i < |outcomes| && Reported(outcomes, evaluated, findings, skipped)
    ensures Reported(outcomes, evaluated + [i], findings', skipped')
    ensures findings' == findings + seq(|RawsOf(outcomes[i])|, k requires 0 <= k < |RawsOf(outcomes[i])| =>
                                          Finding(i, RawsOf(outcomes[i])[k]))
    ensures skipped' == skipped + if outcomes[i].Raws? then 0 else 1
  {
    findings', skipped' := findings, skipped;
    assert (evaluated + [i])[..|evaluated|] == evaluated;
    match outcomes[i]
    case NotRegistered => skipped' := skipped + 1;
    case CheckFailed => skipped' := skipped + 1;
    case Raws(raws) =>
      for k := 0 to |raws|
        invariant findings' == findings + seq(k, x requires 0 <= x < k => Finding(i, raws[x]))
      {
        findings' := findings' + [Finding(i, raws[k])];
      }
  }

  /** How far a scan has come: everything up to `due`, or cut short by the context. */
  ghost predicate Progress(rules: seq<Rule>, status: ScanStatus, evaluated: seq<nat>, due: seq<nat>, done: bool)
  {
    match status
    case ScanRunning => evaluated == due
    case ScanPartial => evaluated < Grouped(rules) && done
    case ScanCompleted => false
  }

  ghost function Due(rules: seq<Rule>, order: seq<string>, k: nat, i: nat): seq<nat>
    requires k < |order| && i <= |rules|
  {
    GroupedBy(rules, order[..k]) + InCategory(rules, order[k], i)
  }

  /** A poll that fails leaves a proper prefix. */
  lemma CutShort(rules: seq<Rule>, order: seq<string>, k: nat, i: nat, status: ScanStatus,
                 evaluated: seq<nat>, done: bool)
    requires order == CategoryOrder(rules) && k < |order| && i < |rules| && Member(rules[i], order[k])
    requires Progress(rules, status, evaluated, Due(rules, order, k, i), done)
    ensures Progress(rules, ScanPartial, evaluated, [], true)
  {
    ProgressIsPrefix(rules, order, k, i + 1);
    assert Due(rules, order, k, i + 1) == Due(rules, order, k, i) + [i];
  }

  lemma NextDue(rules: seq<Rule>, order: seq<string>, k: nat, i: nat)
    requires k < |order| && i < |rules|
    ensures Due(rules, order, k, i + 1) == Due(rules, order, k, i) + if Member(rules[i], order[k]) then [i] else []
    ensures Due(rules, order, k, 0) == GroupedBy(rules, order[..k])
    ensures Due(rules, order, k, |rules|) == GroupedBy(rules, order[..k + 1])
  {
    assert order[..k + 1][..k] == order[..k];
  }

  /** The inner loop of Run: one category. */
  method RunCategory(rules: seq<Rule>, outcomes: seq<Outcome>, ctx: Context, ghost order: seq<string>, k: nat,
                     category: string, findings: seq<Finding>, skipped: nat, status: ScanStatus,
                     ghost evaluated: seq<nat>)
    returns (findings': seq<Finding>, skipped': nat, status': ScanStatus, ghost evaluated': seq<nat>)
    requires |outcomes| == |rules| && order == CategoryOrder(rules) && k < |order| && category == order[k]
    requires Progress(rules, status, evaluated, GroupedBy(rules, order[..k]), ctx.done)
    requires Reported(outcomes, evaluated, findings, skipped)
    modifies ctx
    ensures Progress(rules, status', evaluated', GroupedBy(rules, order[..k + 1]), ctx.done)
    ensures Reported(outcomes, evaluated', findings', skipped')
  {
    findings', skipped', status', evaluated' := findings, skipped, status, evaluated;
    assert order[..k + 1][..k] == order[..k];
    var i := 0;
    while i < |rules|
      invariant 0 <= i <= |rules|
      invariant Progress(rules, status', evaluated', Due(rules, order, k, i), ctx.done)
      invariant Reported(outcomes, evaluated', findings', skipped')
    {
      NextDue(rules, order, k, i);
      if Member(rules[i], category) {
        ghost var done := ctx.done;
        var err := ctx.Err();
        if err {
          CutShort(rules, order, k, i, status', evaluated', done);
          status' := ScanPartial;
          break;
        }
        findings', skipped' := Evaluate(outcomes, i, findings', skipped', evaluated');
        evaluated' := evaluated' + [i];
      }
      i := i + 1;
    }
  }

  /**
   The rules evaluated are a prefix of the grouped order; every finding of theirs is reported,
   once and in that order, and nothing else; the rules among them without an outcome to report
   are counted as skipped; the scan is completed exactly when
   the prefix is the whole order, and partial otherwise.
   */
  method Run(rules: seq<Rule>, outcomes: seq<Outcome>, ctx: Context)
    returns (findings: seq<Finding>, skipped: nat, status: ScanStatus, ghost evaluated: seq<nat>)
    requires |outcomes| == |rules|
    modifies ctx
    ensures evaluated <= Grouped(rules)
    ensures Reported(outcomes, evaluated, findings, skipped)
    ensures InFull(outcomes, evaluated, findings, skipped)
    ensures status == if evaluated == Grouped(rules) then ScanCompleted else ScanPartial
    ensures status == ScanPartial ==> ctx.done
  {
    findings, skipped, status, evaluated := [], 0, ScanRunning, [];
    var categories := Categories(rules);
    for k := 0 to |categories|
      invariant Progress(rules, status, evaluated, GroupedBy(rules, categories[..k]), ctx.done)
      invariant Reported(outcomes, evaluated, findings, skipped)
    {
      findings, skipped, status, evaluated :=
        RunCategory(rules, outcomes, ctx, categories, k, categories[k], findings, skipped, status, evaluated);
    }
    assert categories[..|categories|] == categories;
    ReportedInFull(outcomes, evaluated, findings, skipped);
    if status == ScanRunning {
      status := ScanCompleted;
    }
  }
}
