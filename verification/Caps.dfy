/** The cardinality caps of internal/aggregation/span_rollup_caps.go: how many services and
    names one project may label in one hour before the rest fold into one label. */
module Caps {
  const OTHER: string := "~other"

  datatype CapKey = CapKey(hour: int, project: int, service: string)

  type Table = map<CapKey, set<string>>

  datatype CapState = CapState(services: Table, names: Table, overflowed: set<CapKey>)

  const NO_CAPS: CapState := CapState(map[], map[], {})

  datatype Limits = Limits(services: nat, names: nat)

  datatype Label = Label(service: string, name: string)

  /** The remainder of truncating division. */
  function GoMod(a: int, b: int): int
    requires b > 0
  {
    if a >= 0 then a % b else -((-a) % b)
  }

  function HourOf(bucket: int): int { bucket - GoMod(bucket, 3600) }

  function Held(t: Table, k: CapKey): set<string> { if k in t then t[k] else {} }

  /** Whether v is, or can become, one of the at most limit values held for k. */
  function AdmitOne(t: Table, k: CapKey, v: string, limit: nat): (Table, bool) {
    var held := Held(t, k);
    if v in held then (t[k := held], true)
    else if |held| >= limit then (t[k := held], false)
    else (t[k := held + {v}], true)
  }

  datatype Answer = Answer(at: CapKey, tag: Label, first: bool)

  /** The label a span is recorded under, and whether it is the first to hit its cap. */
  function Admit(
      c: CapState, project: int, service: string, name: string, bucket: int, max: Limits): (CapState, Answer) {
    var hour := HourOf(bucket);
    var top := CapKey(hour, project, "");
    var sub := CapKey(hour, project, service);
    var s := AdmitOne(c.services, top, service, max.services);
    if !s.1 then
      (CapState(s.0, c.names, c.overflowed + {top}), Answer(top, Label(OTHER, OTHER), top !in c.overflowed))
    else
      var n := AdmitOne(c.names, sub, name, max.names);
      if !n.1 then
        (CapState(s.0, n.0, c.overflowed + {sub}), Answer(sub, Label(service, OTHER), sub !in c.overflowed))
      else (CapState(s.0, n.0, c.overflowed), Answer(sub, Label(service, name), false))
  }

  /** Hours before the previous one are forgotten. */
  function KeepFrom(now: int): int { now - GoMod(now, 3600) - 3600 }

  function PruneTable(t: Table, now: int): Table { map k | k in t && k.hour >= KeepFrom(now) :: t[k] }

  function Prune(c: CapState, now: int): CapState {
    CapState(PruneTable(c.services, now), PruneTable(c.names, now),
      set k | k in c.overflowed && k.hour >= KeepFrom(now))
  }

  // ----- runs -----

  datatype CapEvent = Ask(project: int, service: string, name: string, bucket: int) | Forget(now: int)

  function CapStep(c: CapState, e: CapEvent, max: Limits): (CapState, seq<Answer>) {
    match e
    case Ask(p, s, n, b) => var r := Admit(c, p, s, n, b, max); (r.0, [r.1])
    case Forget(now) => (Prune(c, now), [])
  }

  function CapRun(c: CapState, es: seq<CapEvent>, max: Limits): (CapState, seq<Answer>) {
    if es == [] then (c, [])
    else
      var n := |es| - 1;
      var before := CapRun(c, es[..n], max);
      var last := CapStep(before.0, es[n], max);
      (last.0, before.1 + last.1)
  }

  /** No event forgets the hour. */
  predicate Remembers(es: seq<CapEvent>, hour: int) {
    forall e :: e in es && e.Forget? ==> hour >= KeepFrom(e.now)
  }

  ghost predicate Bounded(c: CapState, max: Limits) {
    TableBounded(c.services, max.services) && TableBounded(c.names, max.names)
  }

  ghost predicate TableBounded(t: Table, limit: nat) { forall k :: k in t ==> |t[k]| <= limit }

  lemma {:induction false} AdmitOneBounded(t: Table, k: CapKey, v: string, limit: nat)
    requires TableBounded(t, limit)
    ensures TableBounded(AdmitOne(t, k, v, limit).0, limit)
  {
  }

  lemma {:induction false} StepBounded(c: CapState, e: CapEvent, max: Limits)
    requires Bounded(c, max)
    ensures Bounded(CapStep(c, e, max).0, max)
  {
    if e.Ask? {
      hide AdmitOne, TableBounded;
      var hour := HourOf(e.bucket);
      AdmitOneBounded(c.services, CapKey(hour, e.project, ""), e.service, max.services);
      AdmitOneBounded(c.names, CapKey(hour, e.project, e.service), e.name, max.names);
    }
  }

  lemma {:induction false} RunBounded(c: CapState, es: seq<CapEvent>, max: Limits)
    requires Bounded(c, max)
    ensures Bounded(CapRun(c, es, max).0, max)
  {
    hide Bounded;
    if es != [] {
      var n := |es| - 1;
      RunBounded(c, es[..n], max);
      StepBounded(CapRun(c, es[..n], max).0, es[n], max);
    }
  }

  // ----- the labels of a project in an hour -----

  ghost function ServicesOf(c: CapState, p: int, hour: int): set<string> { Held(c.services, CapKey(hour, p, "")) }
  ghost function NamesOf(c: CapState, p: int, hour: int, s: string): set<string> { Held(c.names, CapKey(hour, p, s)) }

  ghost function Labels(c: CapState, p: int, hour: int, services: set<string>): set<Label> {
    set s, n | s in services && n in NamesOf(c, p, hour, s) + {OTHER} :: Label(s, n)
  }

  ghost function AllLabels(c: CapState, p: int, hour: int): set<Label> {
    Labels(c, p, hour, ServicesOf(c, p, hour)) + {Label(OTHER, OTHER)}
  }

  ghost function LabelsOfOne(s: string, names: set<string>): set<Label> { set n | n in names :: Label(s, n) }

  lemma {:induction false} OneService(s: string, names: set<string>)
    ensures |LabelsOfOne(s, names)| == |names|
  {
    if names != {} {
      var n :| n in names;
      OneService(s, names - {n});
      assert LabelsOfOne(s, names) == LabelsOfOne(s, names - {n}) + {Label(s, n)};
    } else {
      assert LabelsOfOne(s, names) == {};
    }
  }

  lemma {:induction false} LabelsSplit(c: CapState, p: int, hour: int, services: set<string>, s: string)
    requires s in services
    ensures Labels(c, p, hour, services)
         == Labels(c, p, hour, services - {s}) + LabelsOfOne(s, NamesOf(c, p, hour, s) + {OTHER})
  {
    hide NamesOf;
  }

  lemma {:induction false} NamesBounded(c: CapState, p: int, hour: int, s: string, max: Limits)
    requires Bounded(c, max)
    ensures |NamesOf(c, p, hour, s) + {OTHER}| <= max.names + 1
  {
  }

  lemma {:induction false} OneMore(n: nat, k: nat)
    requires n >= 1
    ensures (n - 1) * k + k == n * k
  {
  }

  lemma {:induction false} LabelCount(c: CapState, p: int, hour: int, services: set<string>, max: Limits)
    requires Bounded(c, max)
    ensures |Labels(c, p, hour, services)| <= |services| * (max.names + 1)
  {
    if services == {} {
      assert Labels(c, p, hour, services) == {};
    } else {
      hide Labels, NamesOf, LabelsOfOne;
      var s :| s in services;
      var rest := services - {s};
      LabelCount(c, p, hour, rest, max);
      var names := NamesOf(c, p, hour, s) + {OTHER};
      OneService(s, names);
      LabelsSplit(c, p, hour, services, s);
      NamesBounded(c, p, hour, s, max);
      assert |services| == |rest| + 1;
      OneMore(|services|, max.names + 1);
    }
  }

  /** Between prunes of an hour, a project keeps the labels it has. */
  ghost predicate Grows(c: CapState, d: CapState, p: int, hour: int) {
    && ServicesOf(c, p, hour) <= ServicesOf(d, p, hour)
    && (forall s :: NamesOf(c, p, hour, s) <= NamesOf(d, p, hour, s))
    && (forall k :: k in c.overflowed && k.hour == hour && k.project == p ==> k in d.overflowed)
  }

  lemma {:induction false} AdmitOneGrows(t: Table, k: CapKey, v: string, limit: nat)
    ensures var r := AdmitOne(t, k, v, limit);
            && (forall j :: Held(t, j) <= Held(r.0, j)) && (r.1 ==> v in Held(r.0, k))
  {
  }

  lemma {:induction false} AskGrows(c: CapState, e: CapEvent, max: Limits, p: int, hour: int)
    requires e.Ask?
    ensures Grows(c, CapStep(c, e, max).0, p, hour)
    ensures var a := CapStep(c, e, max).1[0];
            a.at.project == p && a.at.hour == hour ==> a.tag in AllLabels(CapStep(c, e, max).0, p, hour)
  {
    hide AdmitOne, Held, HourOf;
    AdmitOneGrows(c.services, CapKey(HourOf(e.bucket), e.project, ""), e.service, max.services);
    AdmitOneGrows(c.names, CapKey(HourOf(e.bucket), e.project, e.service), e.name, max.names);
  }

  lemma {:induction false} ForgetGrows(c: CapState, now: int, max: Limits, p: int, hour: int)
    requires hour >= KeepFrom(now)
    ensures Grows(c, Prune(c, now), p, hour)
  {
    hide KeepFrom;
  }

  lemma {:induction false} StepGrows(c: CapState, e: CapEvent, max: Limits, p: int, hour: int)
    requires Remembers([e], hour)
    ensures Grows(c, CapStep(c, e, max).0, p, hour)
    ensures forall a :: a in CapStep(c, e, max).1 && a.at.project == p && a.at.hour == hour ==>
              a.tag in AllLabels(CapStep(c, e, max).0, p, hour)
  {
    hide Grows, AllLabels, Admit, Prune;
    assert e in [e];
    if e.Ask? { AskGrows(c, e, max, p, hour); } else { ForgetGrows(c, e.now, max, p, hour); }
  }

  /** Over every run that does not forget the hour, the labels handed out for one project in
      one hour stay within MaxServices * (MaxNames + 1) + 1. */
  lemma {:induction false} LabelsAreCapped(es: seq<CapEvent>, c: CapState, max: Limits, p: int, hour: int)
    requires Bounded(c, max) && Remembers(es, hour)
    ensures var r := CapRun(c, es, max);
            && Grows(c, r.0, p, hour)
            && (forall a :: a in r.1 && a.at.project == p && a.at.hour == hour ==> a.tag in AllLabels(r.0, p, hour))
            && |AllLabels(r.0, p, hour)| <= max.services * (max.names + 1) + 1
  {
    RunBounded(c, es, max);
    var d := CapRun(c, es, max).0;
    var services := ServicesOf(d, p, hour);
    LabelCount(d, p, hour, services, max);
    assert |services| * (max.names + 1) <= max.services * (max.names + 1) by {
      Scale(|services|, max.services, max.names + 1);
    }
    if es != [] {
      var n := |es| - 1;
      LabelsAreCapped(es[..n], c, max, p, hour);
      var before := CapRun(c, es[..n], max);
      assert es[n] in es;
      StepGrows(before.0, es[n], max, p, hour);
      GrowLabels(before.0, d, p, hour);
    }
  }

  lemma {:induction false} Scale(a: nat, b: nat, c: nat)
    requires a <= b
    ensures a * c <= b * c
  {
  }

  lemma {:induction false} GrowLabels(c: CapState, d: CapState, p: int, hour: int)
    requires Grows(c, d, p, hour)
    ensures AllLabels(c, p, hour) <= AllLabels(d, p, hour)
  {
    forall s, n | s in ServicesOf(c, p, hour) && n in NamesOf(c, p, hour, s) + {OTHER}
      ensures Label(s, n) in AllLabels(d, p, hour)
    {
      assert NamesOf(c, p, hour, s) <= NamesOf(d, p, hour, s);
    }
  }

  /** A name that was given its own label keeps it for the rest of the hour. */
  lemma {:induction false} LabelIsKept(
      c: CapState, project: int, service: string, name: string, bucket: int, es: seq<CapEvent>, max: Limits)
    requires Bounded(c, max) && Remembers(es, HourOf(bucket))
    requires service in ServicesOf(c, project, HourOf(bucket)) && name in NamesOf(c, project, HourOf(bucket), service)
    ensures var a := Admit(CapRun(c, es, max).0, project, service, name, bucket, max).1;
            a.tag == Label(service, name) && !a.first
  {
    LabelsAreCapped(es, c, max, project, HourOf(bucket));
    assert NamesOf(c, project, HourOf(bucket), service)
      <= NamesOf(CapRun(c, es, max).0, project, HourOf(bucket), service);
  }

  /** A span that is given its own label is held from then on. */
  lemma {:induction false} OwnLabelIsHeld(
      c: CapState, project: int, service: string, name: string, bucket: int, max: Limits)
    ensures var r := Admit(c, project, service, name, bucket, max);
            var own := service in ServicesOf(r.0, project, HourOf(bucket))
              && name in NamesOf(r.0, project, HourOf(bucket), service);
            (r.1.tag == Label(service, name) && service != OTHER && name != OTHER) ==> own
  {
  }

  /** An overflow is reported at most once per key, for as long as its hour is remembered. */
  lemma {:induction false} ReportedOnce(es: seq<CapEvent>, c: CapState, max: Limits, k: CapKey, i: nat, j: nat)
    requires Remembers(es, k.hour) && i < j < |CapRun(c, es, max).1|
    requires var r := CapRun(c, es, max).1; r[i].at == k && r[i].first && r[j].at == k
    ensures !CapRun(c, es, max).1[j].first
  {
    var n := |es| - 1;
    assert es != [];
    var before := CapRun(c, es[..n], max);
    var answers := CapRun(c, es, max).1;
    if j < |before.1| {
      ReportedOnce(es[..n], c, max, k, i, j);
    } else {
      FirstIsRecorded(es[..n], c, max, k, i);
    }
  }

  lemma {:induction false} FirstIsRecorded(es: seq<CapEvent>, c: CapState, max: Limits, k: CapKey, i: nat)
    requires Remembers(es, k.hour) && i < |CapRun(c, es, max).1|
    requires CapRun(c, es, max).1[i].at == k && CapRun(c, es, max).1[i].first
    ensures k in CapRun(c, es, max).0.overflowed
  {
    var n := |es| - 1;
    assert es != [] && es[n] in es;
    var before := CapRun(c, es[..n], max);
    if i < |before.1| { FirstIsRecorded(es[..n], c, max, k, i); }
    StepGrows(before.0, es[n], max, k.project, k.hour);
  }

  // ----- the object -----

  class RollupCaps {
    var services: Table
    var names: Table
    var overflowed: set<CapKey>

    ghost function View(): CapState
      reads this
    {
      CapState(services, names, overflowed)
    }

    constructor ()
      ensures View() == NO_CAPS
    {
      services, names, overflowed := map[], map[], {};
    }

    method ReportOnce(k: CapKey) returns (first: bool)
      modifies this`overflowed
      ensures overflowed == old(overflowed) + {k} && first == (k !in old(overflowed))
    {
      first := k !in overflowed;
      overflowed := overflowed + {k};
    }

    method AskFor(project: int, service: string, name: string, bucket: int, max: Limits)
      returns (tag: Label, first: bool)
      modifies this
      ensures var r := Admit(old(View()), project, service, name, bucket, max);
              View() == r.0 && tag == r.1.tag && first == r.1.first
    {
      var hour := HourOf(bucket);
      var s := AdmitOne(services, CapKey(hour, project, ""), service, max.services);
      services := s.0;
      if !s.1 {
        first := ReportOnce(CapKey(hour, project, ""));
        return Label(OTHER, OTHER), first;
      }
      var n := AdmitOne(names, CapKey(hour, project, service), name, max.names);
      names := n.0;
      if !n.1 {
        first := ReportOnce(CapKey(hour, project, service));
        return Label(service, OTHER), first;
      }
      return Label(service, name), false;
    }

    method ForgetBefore(now: int)
      modifies this
      ensures View() == Prune(old(View()), now)
    {
      services := PruneLoop(services, now);
      names := PruneLoop(names, now);
      overflowed := set k | k in overflowed && k.hour >= KeepFrom(now);
    }
  }

  /** Deletes the old hours of a table, key by key. */
  method PruneLoop(t: Table, now: int) returns (r: Table)
    ensures r == PruneTable(t, now)
  {
    r := t;
    var todo := t.Keys;
    while todo != {}
      invariant todo <= t.Keys
      invariant r == map k | k in t && (k in todo || k.hour >= KeepFrom(now)) :: t[k]
      decreases |todo|
    {
      var k :| k in todo;
      todo := todo - {k};
      if k.hour < KeepFrom(now) { r := r - {k}; }
    }
  }
}
