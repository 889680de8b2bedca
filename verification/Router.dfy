/** Choosing a model for a request. */
module Router {
  import opened Basics
  import opened Sorting
  import opened Policy

  datatype Risk = Low | Medium | High
  datatype Deployment = LocalModel | PrivateModel | CloudModel

  function RiskRank(r: Risk): nat { match r case Low => 0 case Medium => 1 case High => 2 }
  function DeployRank(d: Deployment): nat { match d case LocalModel => 0 case PrivateModel => 1 case CloudModel => 2 }
  function ClassRank(c: Classification): nat
  {
    match c case Public => 0 case Internal => 1 case Confidential => 2 case Restricted => 3
  }

  datatype Model = Model(id: Str, key: Str, deployment: Deployment, capabilities: seq<Str>, classes: seq<Classification>,
                         riskCeiling: Risk, enabled: bool)

  /** A request and the answers of the policies it asks: `refusal` of the routing skill, whether data
      of its class may leave the device, and whether cloud models may process it. */
  datatype RouteRequest = RouteRequest(classification: Classification, risk: Risk, capabilities: seq<Str>, preferLocal: bool,
                                       refusal: Option<Str>, mayLeave: bool, cloudAllowed: bool)

  datatype RouteReason =
    | CapabilityMatch | LocalRequired | LocalPreferred | PrivateRequired | CloudFallback
    | NoAllowedModel | RiskCeilingExceeded | Refused(reason: Str)

  datatype Route = Route(model: Option<Model>, reason: RouteReason)

  predicate MustStayLocal(r: RouteRequest)
  {
    !r.mayLeave || ClassRank(r.classification) >= ClassRank(Confidential)
  }

  predicate Covers(m: Model, capabilities: seq<Str>)
  {
    forall i :: 0 <= i < |capabilities| ==> capabilities[i] in m.capabilities
  }

  predicate Eligible(r: RouteRequest, m: Model)
  {
    && m.enabled && r.classification in m.classes && RiskRank(r.risk) <= RiskRank(m.riskCeiling)
    && Covers(m, r.capabilities)
    && (MustStayLocal(r) ==> m.deployment.LocalModel?)
    && (m.deployment.CloudModel? ==> r.cloudAllowed)
  }

  function EligibleOf(r: RouteRequest, models: seq<Model>): seq<Model>
  {
    if models == [] then []
    else
      var rest, last := EligibleOf(r, models[..|models| - 1]), models[|models| - 1];
      if Eligible(r, last) then rest + [last] else rest
  }

  /** By deployment, then by key; `keyLe` is the locale's order of keys. */
  function ModelOrder(keyLe: (Str, Str) -> bool): (Model, Model) -> bool
  {
    (a: Model, b: Model) =>
      DeployRank(a.deployment) < DeployRank(b.deployment)
      || (a.deployment == b.deployment && keyLe(a.key, b.key))
  }

  function FirstLocal(models: seq<Model>): (m: Option<Model>)
    ensures m.Some? ==> m.value.deployment.LocalModel?
  {
    if models == [] then None else if models[0].deployment.LocalModel? then Some(models[0]) else FirstLocal(models[1..])
  }

  predicate RiskBlocked(r: RouteRequest, models: seq<Model>)
  {
    exists i :: 0 <= i < |models| && models[i].enabled && RiskRank(r.risk) > RiskRank(models[i].riskCeiling)
  }

  function Pick(r: RouteRequest, sorted: seq<Model>): Route
    requires sorted != []
  {
    var first, local := sorted[0], FirstLocal(sorted);
    if MustStayLocal(r) then Route(Some(if local.Some? then local.value else first), LocalRequired)
    else if r.preferLocal && local.Some? then Route(local, LocalPreferred)
    else if first.deployment.PrivateModel? then Route(Some(first), PrivateRequired)
    else if first.deployment.CloudModel? then Route(Some(first), CloudFallback)
    else Route(Some(first), CapabilityMatch)
  }

  function RouteOf(keyLe: (Str, Str) -> bool, r: RouteRequest, models: seq<Model>): Route
  {
    if r.refusal.Some? then Route(None, Refused(r.refusal.value))
    else
      var eligible := SortBy(ModelOrder(keyLe), EligibleOf(r, models));
      if eligible == [] then Route(None, if RiskBlocked(r, models) then RiskCeilingExceeded else NoAllowedModel)
      else Pick(r, eligible)
  }

  method RouteModel(keyLe: (Str, Str) -> bool, r: RouteRequest, listed: seq<Model>) returns (route: Route)
    ensures route == RouteOf(keyLe, r, listed)
  {
    if r.refusal.Some? {
      return Route(None, Refused(r.refusal.value));
    }
    var localRequired := !r.mayLeave || ClassRank(r.classification) >= ClassRank(Confidential);
    var eligible: seq<Model> := [];
    for i := 0 to |listed|
      invariant eligible == EligibleOf(r, listed[..i])
    {
      assert listed[..i + 1][..i] == listed[..i];
      var model := listed[i];
      if !model.enabled || r.classification !in model.classes {
        continue;
      }
      if RiskRank(r.risk) > RiskRank(model.riskCeiling) {
        continue;
      }
      if exists k :: 0 <= k < |r.capabilities| && r.capabilities[k] !in model.capabilities {
        continue;
      }
      if localRequired && !model.deployment.LocalModel? {
        continue;
      }
      if model.deployment.CloudModel? && !r.cloudAllowed {
        continue;
      }
      eligible := eligible + [model];
    }
    assert listed[..|listed|] == listed;
    eligible := SortBy(ModelOrder(keyLe), eligible);
    if |eligible| == 0 {
      return Route(None, if RiskBlocked(r, listed) then RiskCeilingExceeded else NoAllowedModel);
    }
    var chosen, reason := eligible[0], CapabilityMatch;
    var local := FirstLocal(eligible);
    if localRequired {
      chosen := if local.Some? then local.value else chosen;
      reason := LocalRequired;
    } else if r.preferLocal && local.Some? {
      chosen := local.value;
      reason := LocalPreferred;
    } else if chosen.deployment.PrivateModel? {
      reason := PrivateRequired;
    } else if chosen.deployment.CloudModel? {
      reason := CloudFallback;
    }
    return Route(Some(chosen), reason);
  }

  // ---------------------------------------------------------------- what is chosen

  ghost predicate KeyOrder(keyLe: (Str, Str) -> bool)
  {
    TotalPreorder(keyLe)
  }

  lemma ModelOrderIsTotal(keyLe: (Str, Str) -> bool)
    requires KeyOrder(keyLe)
    ensures TotalPreorder(ModelOrder(keyLe))
  {
    var le := ModelOrder(keyLe);
    forall a: Model, b: Model ensures le(a, b) || le(b, a) {
      assert keyLe(a.key, b.key) || keyLe(b.key, a.key);
    }
    forall a: Model, b: Model, c: Model | le(a, b) && le(b, c) ensures le(a, c) {
      assert keyLe(a.key, b.key) && keyLe(b.key, c.key) ==> keyLe(a.key, c.key);
    }
  }

  lemma {:induction false} EligibleMembers(r: RouteRequest, models: seq<Model>)
    ensures forall m :: m in EligibleOf(r, models) <==> m in models && Eligible(r, m)
  {
    if models != [] {
      EligibleMembers(r, models[..|models| - 1]);
      assert models == models[..|models| - 1] + [models[|models| - 1]];
    }
  }

  /** In sorted order the first local model, if there is one, comes first of all. */
  lemma LocalFirst(keyLe: (Str, Str) -> bool, sorted: seq<Model>)
    requires sorted != [] && Sorted(ModelOrder(keyLe), sorted)
    ensures FirstLocal(sorted).Some? ==> FirstLocal(sorted) == Some(sorted[0])
  {
    if !sorted[0].deployment.LocalModel? {
      forall i | 0 <= i < |sorted| ensures !sorted[i].deployment.LocalModel? {
        assert i > 0 ==> ModelOrder(keyLe)(sorted[0], sorted[i]);
        assert DeployRank(sorted[0].deployment) >= 1;
        assert DeployRank(sorted[0].deployment) <= DeployRank(sorted[i].deployment);
      }
      NoLocal(sorted);
    }
  }

  lemma {:induction false} NoLocal(models: seq<Model>)
    requires forall i :: 0 <= i < |models| ==> !models[i].deployment.LocalModel?
    ensures FirstLocal(models) == None
  {
    if models != [] {
      NoLocal(models[1..]);
    }
  }

  /** The chosen model is the least eligible one by deployment and key, whatever the reason given;
      none is chosen exactly when the skill is refused or nothing is eligible. */
  lemma ChosenIsLeast(keyLe: (Str, Str) -> bool, r: RouteRequest, models: seq<Model>)
    requires KeyOrder(keyLe)
    ensures var m := RouteOf(keyLe, r, models).model;
      && (m.None? <==> r.refusal.Some? || forall x :: x in models ==> !Eligible(r, x))
      && (m.Some? ==> m.value in models && Eligible(r, m.value))
      && (m.Some? ==> forall x :: x in models && Eligible(r, x) ==> ModelOrder(keyLe)(m.value, x))
      && (m.Some? && MustStayLocal(r) ==> m.value.deployment.LocalModel?)
  {
    var eligible := EligibleOf(r, models);
    var sorted := SortBy(ModelOrder(keyLe), eligible);
    EligibleMembers(r, models);
    ModelOrderIsTotal(keyLe);
    SortKeeps(ModelOrder(keyLe), eligible);
    SortSorts(ModelOrder(keyLe), eligible);
    if sorted != [] {
      LocalFirst(keyLe, sorted);
      assert sorted[0] in sorted;
      forall x | x in models && Eligible(r, x) ensures ModelOrder(keyLe)(sorted[0], x) {
        var i :| 0 <= i < |sorted| && sorted[i] == x;
        assert i > 0 ==> ModelOrder(keyLe)(sorted[0], sorted[i]);
      }
    } else {
      assert forall x :: x in models ==> !(x in sorted);
    }
  }

  /** Asking for a local model changes the reason given, never the model. */
  lemma PreferenceIsCosmetic(keyLe: (Str, Str) -> bool, r: RouteRequest, models: seq<Model>, prefer: bool)
    requires KeyOrder(keyLe)
    ensures RouteOf(keyLe, r.(preferLocal := prefer), models).model == RouteOf(keyLe, r, models).model
  {
    var q := r.(preferLocal := prefer);
    SameEligible(r, q, models);
    ModelOrderIsTotal(keyLe);
    SortSorts(ModelOrder(keyLe), EligibleOf(r, models));
    var sorted := SortBy(ModelOrder(keyLe), EligibleOf(r, models));
    if sorted != [] {
      LocalFirst(keyLe, sorted);
    }
  }

  lemma {:induction false} SameEligible(r: RouteRequest, q: RouteRequest, models: seq<Model>)
    requires q == r.(preferLocal := q.preferLocal)
    ensures EligibleOf(q, models) == EligibleOf(r, models)
  {
    if models != [] {
      SameEligible(r, q, models[..|models| - 1]);
    }
  }

  lemma {:induction false} EligibleCount(r: RouteRequest, models: seq<Model>, m: Model)
    ensures multiset(EligibleOf(r, models))[m] == if Eligible(r, m) then multiset(models)[m] else 0
  {
    if models != [] {
      EligibleCount(r, models[..|models| - 1], m);
      assert models == models[..|models| - 1] + [models[|models| - 1]];
    }
  }

  /** The order models are listed in does not matter when no two of them compare equal. */
  lemma ListingIrrelevant(keyLe: (Str, Str) -> bool, r: RouteRequest, a: seq<Model>, b: seq<Model>)
    requires KeyOrder(keyLe) && multiset(a) == multiset(b) && Strict(ModelOrder(keyLe), EligibleOf(r, a))
    ensures RouteOf(keyLe, r, a) == RouteOf(keyLe, r, b)
  {
    ModelOrderIsTotal(keyLe);
    forall m: Model ensures multiset(EligibleOf(r, a))[m] == multiset(EligibleOf(r, b))[m] {
      EligibleCount(r, a, m);
      EligibleCount(r, b, m);
    }
    assert multiset(EligibleOf(r, a)) == multiset(EligibleOf(r, b));
    SortIgnoresOrder(ModelOrder(keyLe), EligibleOf(r, a), EligibleOf(r, b));
    MultisetMembers(a, b);
    BlockedEither(r, a, b);
  }

  lemma BlockedEither(r: RouteRequest, a: seq<Model>, b: seq<Model>)
    requires forall m :: m in a <==> m in b
    ensures RiskBlocked(r, a) <==> RiskBlocked(r, b)
  {
    if RiskBlocked(r, a) {
      var i :| 0 <= i < |a| && a[i].enabled && RiskRank(r.risk) > RiskRank(a[i].riskCeiling);
      assert a[i] in b;
    }
    if RiskBlocked(r, b) {
      var i :| 0 <= i < |b| && b[i].enabled && RiskRank(r.risk) > RiskRank(b[i].riskCeiling);
      assert b[i] in a;
    }
  }

  // ---------------------------------------------------------------- the route, told from the rows

  /** Where the policy keeps the data on the device, or its class does. */
  predicate StaysLocal(r: RouteRequest)
  {
    !r.mayLeave || r.classification.Confidential? || r.classification.Restricted?
  }

  predicate WithinCeiling(risk: Risk, ceiling: Risk)
  {
    risk.Low? || ceiling.High? || risk == ceiling
  }

  predicate Fits(r: RouteRequest, m: Model)
  {
    && m.enabled && r.classification in m.classes && WithinCeiling(r.risk, m.riskCeiling)
    && (forall c :: c in r.capabilities ==> c in m.capabilities)
    && (StaysLocal(r) ==> m.deployment.LocalModel?) && (m.deployment.CloudModel? ==> r.cloudAllowed)
  }

  /** Local before private before cloud, and by key within one deployment. */
  predicate Precedes(keyLe: (Str, Str) -> bool, a: Model, b: Model)
  {
    match a.deployment
    case LocalModel => b.deployment.LocalModel? ==> keyLe(a.key, b.key)
    case PrivateModel => b.deployment.CloudModel? || (b.deployment.PrivateModel? && keyLe(a.key, b.key))
    case CloudModel => b.deployment.CloudModel? && keyLe(a.key, b.key)
  }

  /** The first listed of the models that fit and that no model which fits goes before. */
  ghost predicate Chosen(keyLe: (Str, Str) -> bool, r: RouteRequest, models: seq<Model>, i: nat)
    requires i < |models|
  {
    && Fits(r, models[i])
    && (forall j :: 0 <= j < |models| && Fits(r, models[j]) ==> Precedes(keyLe, models[i], models[j]))
    && (forall j :: 0 <= j < i && Fits(r, models[j]) ==> !Precedes(keyLe, models[j], models[i]))
  }

  ghost predicate ReasonFits(r: RouteRequest, m: Model, reason: RouteReason)
  {
    match reason
    case LocalRequired => StaysLocal(r)
    case LocalPreferred => !StaysLocal(r) && m.deployment.LocalModel? && r.preferLocal
    case CapabilityMatch => !StaysLocal(r) && m.deployment.LocalModel? && !r.preferLocal
    case PrivateRequired => !StaysLocal(r) && m.deployment.PrivateModel?
    case CloudFallback => !StaysLocal(r) && m.deployment.CloudModel?
    case _ => false
  }

  /** The whole answer. */
  ghost predicate Routed(keyLe: (Str, Str) -> bool, r: RouteRequest, models: seq<Model>, route: Route)
  {
    if r.refusal.Some? then route == Route(None, Refused(r.refusal.value))
    else if forall m :: m in models ==> !Fits(r, m)
    then route.model.None? && (route.reason.RiskCeilingExceeded? || route.reason.NoAllowedModel?)
         && (route.reason.RiskCeilingExceeded? <==> exists m :: m in models && m.enabled && !WithinCeiling(r.risk, m.riskCeiling))
    else exists i: nat :: i < |models| && Chosen(keyLe, r, models, i)
                          && route.model == Some(models[i]) && ReasonFits(r, models[i], route.reason)
  }

  lemma FitsExactly(r: RouteRequest, m: Model)
    ensures MustStayLocal(r) <==> StaysLocal(r)
    ensures RiskRank(r.risk) <= RiskRank(m.riskCeiling) <==> WithinCeiling(r.risk, m.riskCeiling)
    ensures Eligible(r, m) <==> Fits(r, m)
  {
    assert Covers(m, r.capabilities) <==> forall c :: c in r.capabilities ==> c in m.capabilities by {
      if c :| c in r.capabilities && c !in m.capabilities {
        var i :| 0 <= i < |r.capabilities| && r.capabilities[i] == c;
      }
    }
  }

  lemma PrecedesExactly(keyLe: (Str, Str) -> bool, a: Model, b: Model)
    ensures ModelOrder(keyLe)(a, b) <==> Precedes(keyLe, a, b)
  {
    assert DeployRank(a.deployment) < DeployRank(b.deployment)
      <==> a.deployment != b.deployment && (a.deployment.LocalModel? || b.deployment.CloudModel?) by {
      match a.deployment { case LocalModel => case PrivateModel => case CloudModel => }
      match b.deployment { case LocalModel => case PrivateModel => case CloudModel => }
    }
  }

  /** Where an eligible model is listed, behind those before it. */
  lemma {:induction false} ListedAt(r: RouteRequest, models: seq<Model>, k: nat) returns (i: nat)
    requires k < |EligibleOf(r, models)|
    ensures i < |models| && models[i] == EligibleOf(r, models)[k]
    ensures forall j :: 0 <= j < i && Eligible(r, models[j]) ==> models[j] in EligibleOf(r, models)[..k]
  {
    var before := models[..|models| - 1];
    var rest := EligibleOf(r, before);
    if k < |rest| {
      i := ListedAt(r, before, k);
      assert EligibleOf(r, models)[..k] == rest[..k];
    } else {
      i := |models| - 1;
      EligibleMembers(r, before);
      forall j | 0 <= j < i && Eligible(r, models[j]) ensures models[j] in EligibleOf(r, models)[..k] {
        assert before[j] == models[j] && EligibleOf(r, models)[..k] == rest;
      }
    }
  }

  lemma ChosenFirst(keyLe: (Str, Str) -> bool, r: RouteRequest, models: seq<Model>) returns (i: nat)
    requires KeyOrder(keyLe) && EligibleOf(r, models) != []
    ensures i < |models| && Chosen(keyLe, r, models, i)
    ensures SortBy(ModelOrder(keyLe), EligibleOf(r, models)) != []
    ensures SortBy(ModelOrder(keyLe), EligibleOf(r, models))[0] == models[i]
  {
    var eligible := EligibleOf(r, models);
    ModelOrderIsTotal(keyLe);
    EligibleMembers(r, models);
    var k := LeastComesFirst(ModelOrder(keyLe), eligible);
    i := ListedAt(r, models, k);
    forall j | 0 <= j < |models| && Fits(r, models[j])
      ensures Precedes(keyLe, models[i], models[j]) && (j < i ==> !Precedes(keyLe, models[j], models[i]))
    {
      FitsExactly(r, models[j]);
      assert models[j] in eligible;
      PrecedesExactly(keyLe, models[i], models[j]);
      PrecedesExactly(keyLe, models[j], models[i]);
    }
    FitsExactly(r, models[i]);
  }

  lemma PickExactly(keyLe: (Str, Str) -> bool, r: RouteRequest, sorted: seq<Model>)
    requires sorted != [] && Sorted(ModelOrder(keyLe), sorted)
    ensures Pick(r, sorted).model == Some(sorted[0]) && ReasonFits(r, sorted[0], Pick(r, sorted).reason)
  {
    LocalFirst(keyLe, sorted);
    FitsExactly(r, sorted[0]);
  }

  /** A route says exactly which model, the first among equals, and exactly why. */
  lemma RouteExactly(keyLe: (Str, Str) -> bool, r: RouteRequest, models: seq<Model>)
    requires KeyOrder(keyLe)
    ensures Routed(keyLe, r, models, RouteOf(keyLe, r, models))
  {
    forall m: Model ensures Eligible(r, m) <==> Fits(r, m) {
      FitsExactly(r, m);
    }
    EligibleMembers(r, models);
    var eligible := EligibleOf(r, models);
    if r.refusal.Some? {
    } else if eligible == [] {
      forall m | m in models ensures RiskRank(r.risk) <= RiskRank(m.riskCeiling) <==> WithinCeiling(r.risk, m.riskCeiling) {
        FitsExactly(r, m);
      }
    } else {
      var i := ChosenFirst(keyLe, r, models);
      ModelOrderIsTotal(keyLe);
      SortSorts(ModelOrder(keyLe), eligible);
      PickExactly(keyLe, r, SortBy(ModelOrder(keyLe), eligible));
      assert models[i] in models && Fits(r, models[i]);
    }
  }
}
