// Entitlements: which models are servable, which of them a tenant may use, and
// which privacy class a request carries. Models src/llm_router/registry.py.
module Registry {
  import opened Models
  import opened Wrappers

  datatype Stage = Development | Staging | Production | Deprecated

  datatype Tier = SmallSpecialist | GeneralLocal | HighCapability | ExternalFallback

  // What a card says beyond the profile the router sees.
  datatype ModelCard = ModelCard(tier: Tier, stage: Stage, profile: ModelProfile)

  datatype Tenant = Tenant(
    permittedTiers: set<Tier>,
    permittedModels: set<string>,
    minimumPrivacy: Privacy,
    allowExternalFallback: Option<bool>,
    qualityFloor: real)

  datatype Catalog = Catalog(models: seq<ModelCard>, eligibleModels: set<string>)

  // A catalog that names a model twice is refused when it is loaded.
  ghost predicate WellFormed(catalog: Catalog) {
    forall i, j :: 0 <= i < j < |catalog.models| ==>
      catalog.models[i].profile.id != catalog.models[j].profile.id
  }

  function Rank(p: Privacy): nat {
    match p
    case Public => 0
    case Private => 1
    case Restricted => 2
  }

  function StrictestPrivacy(left: Privacy, right: Privacy): Privacy {
    if Rank(left) >= Rank(right) then left else right
  }

  /** The stricter class is the least one that is at least as sensitive as both:
      a tenant floor can only raise a request, and raises it no further than needed. */
  lemma StrictestIsLeastUpperBound(left: Privacy, right: Privacy, bound: Privacy)
    ensures Rank(StrictestPrivacy(left, right)) <= Rank(bound) <==>
      Rank(left) <= Rank(bound) && Rank(right) <= Rank(bound)
    ensures StrictestPrivacy(left, right) == bound <==>
      (bound == left || bound == right) && Rank(left) <= Rank(bound) && Rank(right) <= Rank(bound)
  {
  }

  predicate Servable(catalog: Catalog, card: ModelCard) {
    && card.stage in {Staging, Production}
    && (catalog.eligibleModels == {} || card.profile.id in catalog.eligibleModels)
  }

  function ServableAmong(catalog: Catalog, cards: seq<ModelCard>): seq<ModelCard> {
    if cards == [] then []
    else (if Servable(catalog, cards[0]) then [cards[0]] else []) + ServableAmong(catalog, cards[1..])
  }

  function ServableModels(catalog: Catalog): seq<ModelCard> {
    ServableAmong(catalog, catalog.models)
  }

  function Profiles(catalog: Catalog): seq<ModelProfile> {
    var cards := ServableModels(catalog);
    seq(|cards|, i requires 0 <= i < |cards| => cards[i].profile)
  }

  predicate Entitled(tenant: Tenant, card: ModelCard) {
    && (tenant.permittedTiers == {} || card.tier in tenant.permittedTiers)
    && (tenant.permittedModels == {} || card.profile.id in tenant.permittedModels)
  }

  // None means unrestricted; an entitlement that matches nothing is an empty set.
  function PermittedModelsFor(catalog: Catalog, tenant: Option<Tenant>): Option<set<string>> {
    if tenant.None? || (tenant.value.permittedTiers == {} && tenant.value.permittedModels == {}) then None
    else Some(set card | card in ServableModels(catalog) && Entitled(tenant.value, card) :: card.profile.id)
  }

  lemma {:induction false} ServableExact(catalog: Catalog, cards: seq<ModelCard>, card: ModelCard)
    ensures card in ServableAmong(catalog, cards) <==> card in cards && Servable(catalog, card)
  {
    if cards != [] {
      assert cards == [cards[0]] + cards[1..];
      ServableExact(catalog, cards[1..], card);
    }
  }

  lemma ProfilesExact(catalog: Catalog, p: ModelProfile)
    ensures p in Profiles(catalog) <==>
      exists card :: card in catalog.models && Servable(catalog, card) && card.profile == p
  {
    var cards := ServableModels(catalog);
    if p in Profiles(catalog) {
      var i :| 0 <= i < |cards| && cards[i].profile == p;
      ServableExact(catalog, catalog.models, cards[i]);
    }
    if card :| card in catalog.models && Servable(catalog, card) && card.profile == p {
      ServableExact(catalog, catalog.models, card);
      var i :| 0 <= i < |cards| && cards[i] == card;
      assert Profiles(catalog)[i] == p;
    }
  }

  /** A servable model is open to a tenant exactly when its card meets every list the
      tenant carries, whether or not the tenant is restricted at all. */
  lemma PermittedExact(catalog: Catalog, tenant: Tenant, card: ModelCard)
    requires WellFormed(catalog) && card in catalog.models
    ensures var permitted := PermittedModelsFor(catalog, Some(tenant));
      Servable(catalog, card) && (permitted.None? || card.profile.id in permitted.value)
      <==> Servable(catalog, card) && Entitled(tenant, card)
  {
    var permitted := PermittedModelsFor(catalog, Some(tenant));
    ServableExact(catalog, catalog.models, card);
    if permitted.Some? && card.profile.id in permitted.value {
      var other :| other in ServableModels(catalog) && Entitled(tenant, other) && other.profile.id == card.profile.id;
      ServableExact(catalog, catalog.models, other);
      assert other == card;
    }
  }

  /** Nothing outside the servable catalog is ever permitted by name. */
  lemma PermittedAreServable(catalog: Catalog, tenant: Option<Tenant>, id: string)
    requires PermittedModelsFor(catalog, tenant).Some? && id in PermittedModelsFor(catalog, tenant).value
    ensures exists card ::
      card in catalog.models && Servable(catalog, card) && Entitled(tenant.value, card) && card.profile.id == id
  {
    var card :| card in ServableModels(catalog) && Entitled(tenant.value, card) && card.profile.id == id;
    ServableExact(catalog, catalog.models, card);
  }

  /** What the lists mean: a tenant may use a model exactly when it is staged or in production,
      on the operator's list if there is one, and admitted by tier and by name wherever the
      tenant's record restricts them. */
  lemma PermittedReadsTheLists(catalog: Catalog, tenant: Tenant, card: ModelCard)
    requires WellFormed(catalog) && card in catalog.models
    ensures var permitted := PermittedModelsFor(catalog, Some(tenant));
      card in ServableModels(catalog) && (permitted.None? || card.profile.id in permitted.value) <==>
      && (card.stage == Staging || card.stage == Production)
      && (catalog.eligibleModels == {} || card.profile.id in catalog.eligibleModels)
      && (tenant.permittedTiers == {} || card.tier in tenant.permittedTiers)
      && (tenant.permittedModels == {} || card.profile.id in tenant.permittedModels)
  {
    PermittedExact(catalog, tenant, card);
    ServableExact(catalog, catalog.models, card);
  }

  /** A restricted tenant is never unrestricted: its entitlement is a set, even an empty one,
      exactly when its record names a tier or a model. */
  lemma RestrictedIff(catalog: Catalog, tenant: Option<Tenant>)
    ensures PermittedModelsFor(catalog, tenant).Some? <==>
      tenant.Some? && (tenant.value.permittedTiers != {} || tenant.value.permittedModels != {})
  {
  }
}
