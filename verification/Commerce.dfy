/**
 * Converging one product on one provider (internal/commerce/service.go) against a
 * durable mapping store (internal/adapter/postgres/commerce_mapping.go) and a
 * provider that may answer anything.
 *
 * A sync holds the lock of its product, so rows of that product change only by its
 * own writes; between any two of its steps the rows of all other products may change
 * in any way that the uniqueness constraints allow. Every store write may fail, or
 * take effect with its reply lost.
 */
module Commerce {
  import opened Wrappers
  import opened OperationKey

  const MAX_EXTERNAL := 200

  datatype ErrorKind = InvalidInput | NotFound | Conflict | Internal

  type StoreId = nat

  /** A row of a product or of one of its parts. */
  datatype Part = Part(product: Bytes, id: Bytes)

  datatype Mapping = Mapping(external: Bytes, store: Option<StoreId>)

  datatype VariantMapping = VariantMapping(parent: Bytes, external: Bytes, store: Option<StoreId>)

  datatype ConfigurationMapping = ConfigurationMapping(parent: Bytes, external: Bytes)

  datatype Tables = Tables(
    products: map<Bytes, Mapping>, configurations: map<Part, ConfigurationMapping>, variants: map<Part, VariantMapping>)

  predicate ValidExternal(external: Bytes) {
    0 < |external| <= MAX_EXTERNAL
  }

  /** The constraints of the database. */
  predicate TablesOk(t: Tables) {
    && (forall p | p in t.products :: ValidExternal(t.products[p].external))
    && (forall p, q | p in t.products && q in t.products && p != q :: t.products[p].external != t.products[q].external)
    && (forall v | v in t.variants :: ValidExternal(t.variants[v].parent) && ValidExternal(t.variants[v].external))
    && (forall v, w | v in t.variants && w in t.variants && v != w && t.variants[v].store.Some?
          && t.variants[v].store == t.variants[w].store ::
          t.variants[v].parent != t.variants[w].parent || t.variants[v].external != t.variants[w].external)
  }

  function ProductRow(t: Tables, p: Bytes): Option<Mapping> {
    if p in t.products then Some(t.products[p]) else None
  }

  function VariantRow(t: Tables, v: Part): Option<VariantMapping> {
    if v in t.variants then Some(t.variants[v]) else None
  }

  function ConfigurationRow(t: Tables, c: Part): Option<ConfigurationMapping> {
    if c in t.configurations then Some(t.configurations[c]) else None
  }

  ghost predicate SameVariants(p: Bytes, t: Tables, u: Tables) {
    forall v: Part | v.product == p :: VariantRow(t, v) == VariantRow(u, v)
  }

  ghost predicate SameConfigurations(p: Bytes, t: Tables, u: Tables) {
    forall c: Part | c.product == p :: ConfigurationRow(t, c) == ConfigurationRow(u, c)
  }

  ghost predicate SameRows(p: Bytes, t: Tables, u: Tables) {
    ProductRow(t, p) == ProductRow(u, p) && SameVariants(p, t, u) && SameConfigurations(p, t, u)
  }

  /** The mapped external ids of a product's variants. */
  function ExistingVariants(t: Tables, p: Bytes): map<Bytes, Bytes> {
    map v | v in t.variants && v.product == p :: v.id := t.variants[v].external
  }

  // ---- Store writes ----

  datatype Write =
    | CreateProduct(product: Bytes, external: Bytes, store: Option<StoreId>)
    | UpdateProduct(product: Bytes, expected: Bytes, next: Bytes)
    | UpsertConfiguration(part: Part, parent: Bytes, external: Bytes)
    | CreateVariant(part: Part, parent: Bytes, external: Bytes, store: Option<StoreId>)
    | UpdateVariant(part: Part, parent: Bytes, previous: Bytes, next: Bytes, store: Option<StoreId>)
  {
    function Product(): Bytes {
      if CreateProduct? || UpdateProduct? then product else part.product
    }
  }

  datatype Written = Written(tables: Tables, error: Option<ErrorKind>)

  predicate ExternalTaken(t: Tables, p: Bytes, external: Bytes) {
    exists q | q in t.products :: q != p && t.products[q].external == external
  }

  predicate PairTaken(t: Tables, v: Part, parent: Bytes, external: Bytes) {
    exists w | w in t.variants :: w != v && t.variants[w].parent == parent && t.variants[w].external == external
  }

  predicate PairTakenInStore(t: Tables, v: Part, parent: Bytes, external: Bytes, store: Option<StoreId>) {
    exists w | w in t.variants ::
      w != v && t.variants[w].parent == parent && t.variants[w].external == external && t.variants[w].store == store
  }

  /** Insert, or classify the row that is already there; a legacy row adopts the store of its product. */
  function CreateProductRow(t: Tables, p: Bytes, external: Bytes, store: Option<StoreId>): Written {
    if !ValidExternal(external) then Written(t, Some(InvalidInput))
    else if p !in t.products then
      if ExternalTaken(t, p, external) then Written(t, Some(Conflict))
      else Written(t.(products := t.products[p := Mapping(external, store)]), None)
    else
      var row := t.products[p];
      if row.external != external then Written(t, Some(Conflict))
      else if row.store.None? && store.Some? then Written(t.(products := t.products[p := row.(store := store)]), None)
      else if row.store.Some? && store.Some? && row.store != store then Written(t, Some(Conflict))
      else Written(t, None)
  }

  /** Compare-and-set of a product's external id. */
  function UpdateProductRow(t: Tables, p: Bytes, expected: Bytes, next: Bytes): Written {
    if expected == next then Written(t, if p in t.products then None else Some(NotFound))
    else if p !in t.products || t.products[p].external != expected then Written(t, Some(Conflict))
    else if !ValidExternal(next) || ExternalTaken(t, p, next) then Written(t, Some(Internal))
    else Written(t.(products := t.products[p := t.products[p].(external := next)]), None)
  }

  function CreateVariantRow(t: Tables, v: Part, parent: Bytes, external: Bytes, store: Option<StoreId>): Written {
    if !ValidExternal(parent) || !ValidExternal(external) then Written(t, Some(InvalidInput))
    else if v in t.variants then
      var row := t.variants[v];
      if row.parent != parent || row.external != external || (row.store.Some? && store.Some? && row.store != store) then
        Written(t, Some(Conflict))
      else Written(t, None)
    else if PairTaken(t, v, parent, external) then Written(t, Some(Conflict))
    else Written(t.(variants := t.variants[v := VariantMapping(parent, external, store)]), None)
  }

  /** The parent-to-child transition, fenced by the previous pair and by the store of the product. */
  function UpdateVariantRow(t: Tables, v: Part, parent: Bytes, previous: Bytes, next: Bytes,
      store: Option<StoreId>): Written {
    if !ValidExternal(parent) || previous != parent || !ValidExternal(next)
      || next == previous then Written(t, Some(Conflict))
    else if v in t.variants && t.variants[v].parent == parent && t.variants[v].store.Some?
      && t.variants[v].store == store then
      var row := t.variants[v];
      if row.external == next then Written(t, None)
      else if row.external != previous then Written(t, Some(Conflict))
      else if PairTakenInStore(t, v, parent, next, store) then Written(t, Some(Internal))
      else Written(t.(variants := t.variants[v := row.(external := next)]), None)
    else Written(t, Some(Conflict))
  }

  function Apply(t: Tables, w: Write): Written {
    match w
    case CreateProduct(p, external, store) => CreateProductRow(t, p, external, store)
    case UpdateProduct(p, expected, next) => UpdateProductRow(t, p, expected, next)
    case UpsertConfiguration(c, parent, external) =>
      Written(t.(configurations := t.configurations[c := ConfigurationMapping(parent, external)]), None)
    case CreateVariant(v, parent, external, store) => CreateVariantRow(t, v, parent, external, store)
    case UpdateVariant(v, parent, previous, next, store) => UpdateVariantRow(t, v, parent, previous, next, store)
  }

  /** No write breaks a constraint, and every write touches only rows of its product. */
  lemma ApplyKeepsConstraints(t: Tables, w: Write)
    requires TablesOk(t)
    ensures TablesOk(Apply(t, w).tables)
    ensures Apply(t, w).error.Some? ==> Apply(t, w).tables == t
  {
  }

  /** Stores that do not contradict each other: a row may still be without one. */
  predicate SameStore(a: Option<StoreId>, b: Option<StoreId>) {
    a == None || b == None || a == b
  }

  /**
   * When a write succeeds: a mapping that is there already is never replaced, only
   * found again or moved from exactly what the caller knew, to what nobody else has.
   */
  lemma WritesSucceedIff(t: Tables, w: Write)
    ensures Apply(t, w).error == None <==>
      match w
      case CreateProduct(p, external, store) =>
        1 <= |external| <= 200
        && if p in t.products then t.products[p].external == external && SameStore(t.products[p].store, store)
           else forall q | q in t.products :: t.products[q].external != external
      case UpdateProduct(p, expected, next) =>
        && p in t.products
        && (expected == next
            || (t.products[p].external == expected && 1 <= |next| <= 200
                && forall q | q in t.products && q != p :: t.products[q].external != next))
      case UpsertConfiguration(_, _, _) => true
      case CreateVariant(v, parent, external, store) =>
        && 1 <= |parent| <= 200 && 1 <= |external| <= 200
        && (if v in t.variants then
              var row := t.variants[v];
              row.parent == parent && row.external == external && SameStore(row.store, store)
            else forall u | u in t.variants :: t.variants[u].parent != parent || t.variants[u].external != external)
      case UpdateVariant(v, parent, previous, next, store) =>
        && 1 <= |parent| <= 200 && 1 <= |next| <= 200 && parent == previous != next
        && v in t.variants && t.variants[v].parent == parent && t.variants[v].store == store != None
        && (t.variants[v].external == next
            || (t.variants[v].external == previous
                && forall u | u in t.variants && u != v && t.variants[u].store == store ::
                     t.variants[u].parent != parent || t.variants[u].external != next))
  {
  }

  /** What a write that succeeds leaves in its row. */
  lemma WritesLeave(t: Tables, w: Write)
    requires Apply(t, w).error == None
    ensures var u := Apply(t, w).tables;
      match w
      case CreateProduct(p, external, store) =>
        u == t.(products := t.products[p := Mapping(external,
          if p in t.products && t.products[p].store.Some? then t.products[p].store else store)])
      case UpdateProduct(p, expected, next) =>
        if expected == next then u == t else u == t.(products := t.products[p := Mapping(next, t.products[p].store)])
      case UpsertConfiguration(c, parent, external) =>
        u == t.(configurations := t.configurations[c := ConfigurationMapping(parent, external)])
      case CreateVariant(v, parent, external, store) =>
        if v in t.variants then u == t
        else u == t.(variants := t.variants[v := VariantMapping(parent, external, store)])
      case UpdateVariant(v, parent, _, next, store) =>
        u == t.(variants := t.variants[v := VariantMapping(parent, next, store)])
  {
  }

  // ---- Desired state ----

  datatype VariantFacts = VariantFacts(id: Bytes, available: int64, ready: bool, inventoryRevision: int64)

  datatype Policy = Policy(sellOnline: bool, revision: int64)

  /** What the catalog says about a product. */
  datatype Facts = Facts(
    active: bool, policy: Option<Policy>, onlineAllowed: bool, available: int64, catalogRevision: int64,
      inventoryRevision: int64,
    categoryFingerprint: Bytes, categoryVersion: Bytes, configurationsFingerprint: Bytes, configurationsVersion: Bytes,
    variantsFingerprint: Bytes, variantsVersion: Bytes, variants: seq<VariantFacts>)

  predicate Publishable(f: Facts) {
    f.active && f.policy.Some? && f.policy.value.sellOnline && f.onlineAllowed
  }

  datatype Variant = Variant(id: Bytes, quantity: int64, ready: bool, inventoryRevision: int64)

  datatype Desired = Desired(
    facts: Facts, policyRevision: int64, published: bool, quantity: int64, variants: seq<Variant>)

  /** The quantity offered: stock only when published. */
  function Offered(published: bool, available: int64): int64 {
    if published then available else 0
  }

  function DesiredOf(f: Facts): Desired {
    var published := Publishable(f);
    Desired(f, if f.policy.Some? then f.policy.value.revision else 0, published, Offered(published, f.available),
            seq(|f.variants|, i requires 0 <= i < |f.variants| =>
              var v := f.variants[i]; Variant(v.id, Offered(published, v.available), v.ready, v.inventoryRevision)))
  }

  /**
   * A product is published when it is active, its policy sells online and its category
   * allows it; what is not published is offered as zero, the variants in their order.
   */
  lemma DesiredIs(f: Facts)
    ensures var d := DesiredOf(f);
      var published := f.active && f.onlineAllowed && f.policy.Some? && f.policy.value.sellOnline;
      && d.facts == f && d.published == published && d.quantity == (if published then f.available else 0)
      && d.policyRevision == (if f.policy == None then 0 else f.policy.value.revision)
      && |d.variants| == |f.variants|
      && forall i | 0 <= i < |f.variants| ::
           var v := f.variants[i];
           d.variants[i] == Variant(v.id, if published then v.available else 0, v.ready, v.inventoryRevision)
  {
  }

  method GetDesiredCommerceProduct(f: Facts) returns (d: Desired)
    ensures d == DesiredOf(f)
  {
    var published := f.active && f.policy.Some? && f.policy.value.sellOnline && f.onlineAllowed;
    var variants: seq<Variant> := [];
    for i := 0 to |f.variants|
      invariant variants == DesiredOf(f).variants[..i]
    {
      var quantity := f.variants[i].available;
      if !published {
        quantity := 0;
      }
      variants := variants
        + [Variant(f.variants[i].id, quantity, f.variants[i].ready, f.variants[i].inventoryRevision)];
    }
    var quantity := f.available;
    if !published {
      quantity := 0;
    }
    d := Desired(f, if f.policy.Some? then f.policy.value.revision else 0, published, quantity, variants);
  }

  // ---- The provider ----

  datatype UpsertReply = UpsertReply(external: Bytes, configurations: map<Bytes, Bytes>, sellableTransition: bool)

  datatype VariantsReply = VariantsReply(variants: map<Bytes, Bytes>, transitions: map<Bytes, Bytes>)

  datatype Call =
    | UpsertProduct(product: Bytes, existing: Option<Bytes>, published: bool, key: Key)
    | UpsertVariants(product: Bytes, parent: Bytes, known: map<Bytes, Bytes>, published: bool, key: Key)
    | SetInventory(product: Bytes, external: Bytes, quantity: int64, key: Key)
    | SetVariantInventory(product: Bytes, variant: Bytes, parent: Bytes, external: Bytes, quantity: int64, key: Key)

  /** A call, the tables at the moment it was made, and what the provider answered if it did. */
  datatype Record = Record(call: Call, tables: Tables, product: UpsertReply, variants: VariantsReply)

  /** An inventory call addresses what the durable mapping says. */
  predicate Addressed(call: Call, t: Tables) {
    match call
    case SetInventory(p, external, _, _) => p in t.products && t.products[p].external == external
    case SetVariantInventory(p, v, parent, external, _, _) =>
      && p in t.products && t.products[p].external == parent
      && Part(p, v) in t.variants && t.variants[Part(p, v)].external == external
    case _ => true
  }

  function CallsOf(records: seq<Record>): (r: seq<Call>)
    ensures |r| == |records| && forall i | 0 <= i < |r| :: r[i] == records[i].call
  {
    seq(|records|, i requires 0 <= i < |records| => records[i].call)
  }

  function ProductKeyOf(provider: Bytes, p: Bytes, d: Desired): Key {
    ProductKey(provider, p, d.facts.catalogRevision, d.policyRevision, d.published,
               d.facts.categoryFingerprint, d.facts.categoryVersion, d.facts.configurationsFingerprint,
               d.facts.configurationsVersion)
  }

  function InventoryKeyOf(provider: Bytes, p: Bytes, d: Desired): Key {
    InventoryKey(provider, p, d.facts.catalogRevision, d.policyRevision, d.facts.inventoryRevision, d.quantity,
      d.published,
                 d.facts.categoryFingerprint, d.facts.categoryVersion, d.facts.configurationsFingerprint,
                 d.facts.configurationsVersion)
  }

  function VariantsKeyOf(provider: Bytes, p: Bytes, d: Desired): Key {
    VariantsKey(provider, p, d.facts.catalogRevision, d.policyRevision, d.published, d.facts.variantsFingerprint,
      d.facts.variantsVersion)
  }

  function VariantKeyOf(provider: Bytes, p: Bytes, d: Desired, v: Variant): Key {
    VariantInventoryKey(provider, p, v.id, d.facts.catalogRevision, d.policyRevision, v.inventoryRevision, v.quantity,
      v.ready,
                        d.published, d.facts.variantsFingerprint, d.facts.variantsVersion)
  }

  // ---- What a sync may do ----

  function Lookup(m: map<Bytes, Bytes>, k: Bytes): Bytes {
    if k in m then m[k] else []
  }

  /** The returned identity of a product is storable, and changes a known one only with proof. */
  predicate Usable(mapped: Option<Mapping>, reply: UpsertReply) {
    && ValidExternal(reply.external)
    && (mapped.Some? && mapped.value.external != reply.external ==> reply.sellableTransition)
  }

  predicate IsVariantOf(variants: seq<Variant>, id: Bytes) {
    exists i | 0 <= i < |variants| :: variants[i].id == id
  }

  /** What the provider returned for one desired variant is usable. */
  predicate VariantFits(id: Bytes, existing: map<Bytes, Bytes>, parent: Bytes, reply: VariantsReply) {
    && ValidExternal(Lookup(reply.variants, id))
    && (id in existing && existing[id] != reply.variants[id] ==>
          existing[id] == parent && Lookup(reply.transitions, id) == parent)
  }

  predicate TransitionFits(variants: seq<Variant>, id: Bytes, existing: map<Bytes, Bytes>, parent: Bytes,
      reply: VariantsReply) {
    && IsVariantOf(variants, id)
    && Lookup(existing, id) == Lookup(reply.transitions, id) == parent && Lookup(reply.variants, id) != parent
  }

  /** The whole returned set is usable: nothing missing, nothing unknown, no identity changed without proof. */
  predicate ValidSet(variants: seq<Variant>, existing: map<Bytes, Bytes>, parent: Bytes, reply: VariantsReply) {
    && (forall i | 0 <= i < |variants| :: VariantFits(variants[i].id, existing, parent, reply))
    && (forall id | id in reply.variants :: IsVariantOf(variants, id))
    && (forall id | id in reply.transitions :: TransitionFits(variants, id, existing, parent, reply))
  }

  /** In a usable set the claimed transitions are exactly the identities that change. */
  lemma TransitionsAreExact(variants: seq<Variant>, existing: map<Bytes, Bytes>, parent: Bytes, reply: VariantsReply,
      id: Bytes)
    requires ValidExternal(parent) && ValidSet(variants, existing, parent, reply)
    ensures id in reply.transitions <==>
      IsVariantOf(variants, id) && id in existing && existing[id] != Lookup(reply.variants, id)
    ensures id in reply.variants <==> IsVariantOf(variants, id)
  {
    if IsVariantOf(variants, id) {
      var i :| 0 <= i < |variants| && variants[i].id == id;
      assert VariantFits(variants[i].id, existing, parent, reply);
    }
  }

  /** A log grew along a script, perhaps not to its end. */
  predicate Follows(before: seq<Call>, after: seq<Call>, script: seq<Call>) {
    before <= after <= before + script
  }

  lemma FollowsNothing(before: seq<Call>, script: seq<Call>)
    ensures Follows(before, before, script)
  {
  }

  lemma FollowsOne(before: seq<Call>, call: Call, after: seq<Call>, rest: seq<Call>)
    requires Follows(before + [call], after, rest)
    ensures Follows(before, after, [call] + rest)
    ensures before + [call] + rest == before + ([call] + rest)
  {
    assert before + [call] + rest == before + ([call] + rest);
  }

  /** The calls of one sync that got that far, in order. */
  function InventoryCalls(provider: Bytes, p: Bytes, d: Desired, parent: Bytes, reply: VariantsReply): (r: seq<Call>)
    ensures |r| == |d.variants|
  {
    seq(|d.variants|, i requires 0 <= i < |d.variants| =>
      SetVariantInventory(p, d.variants[i].id, parent, Lookup(reply.variants, d.variants[i].id), d.variants[i].quantity,
                          VariantKeyOf(provider, p, d, d.variants[i])))
  }

  function VariantCalls(provider: Bytes, p: Bytes, d: Desired, parent: Bytes, existing: map<Bytes, Bytes>,
      reply: VariantsReply): seq<Call> {
    [UpsertVariants(p, parent, existing, d.published, VariantsKeyOf(provider, p, d))]
      + InventoryCalls(provider, p, d, parent, reply)
  }

  function UpsertCall(provider: Bytes, p: Bytes, d: Desired, mapped: Option<Mapping>): Call {
    UpsertProduct(p, if mapped.Some? then Some(mapped.value.external) else None, d.published,
      ProductKeyOf(provider, p, d))
  }

  function Availability(provider: Bytes, p: Bytes, d: Desired, existing: map<Bytes, Bytes>, reply: UpsertReply,
      variantsReply: VariantsReply): seq<Call> {
    if d.variants == [] then [SetInventory(p, reply.external, d.quantity, InventoryKeyOf(provider, p, d))]
    else VariantCalls(provider, p, d, reply.external, existing, variantsReply)
  }

  function Script(provider: Bytes, p: Bytes, d: Desired, mapped: Option<Mapping>, existing: map<Bytes, Bytes>,
                  reply: UpsertReply, variantsReply: VariantsReply): seq<Call>
  {
    [UpsertCall(provider, p, d, mapped)] + Availability(provider, p, d, existing, reply, variantsReply)
  }

  /**
   * Whatever the provider answers, a product with variants gets no quantity of its own,
   * and an unpublished one gets only zeros.
   */
  lemma ScriptIsSafe(provider: Bytes, p: Bytes, f: Facts, mapped: Option<Mapping>, existing: map<Bytes, Bytes>,
                     reply: UpsertReply, variantsReply: VariantsReply, k: nat)
    requires k < |Script(provider, p, DesiredOf(f), mapped, existing, reply, variantsReply)|
    ensures var call := Script(provider, p, DesiredOf(f), mapped, existing, reply, variantsReply)[k];
      && call.product == p
      && (call.SetInventory? ==> f.variants == [] && call.quantity == Offered(Publishable(f), f.available))
      && (call.SetVariantInventory? ==> 2 <= k < |f.variants| + 2 && call.variant == f.variants[k - 2].id)
      && (call.SetVariantInventory? ==> call.quantity == Offered(Publishable(f), f.variants[k - 2].available))
      && (!Publishable(f) && (call.SetInventory? || call.SetVariantInventory?) ==> call.quantity == 0)
    ensures var d, script := DesiredOf(f), Script(provider, p, DesiredOf(f), mapped, existing, reply, variantsReply);
      var call := script[k];
      && |script| == (if f.variants == [] then 2 else 2 + |f.variants|)
      && (k == 0 <==> call.UpsertProduct?) && (k == 1 && f.variants != [] <==> call.UpsertVariants?)
      && (call.UpsertProduct? ==>
            call.published == d.published && (call.existing == None <==> mapped == None)
            && (mapped.Some? ==> call.existing == Some(mapped.value.external)))
      && (call.UpsertVariants? ==>
            call.published == d.published && call.known == existing && call.parent == reply.external)
      && (call.SetInventory? ==> call.external == reply.external)
      && (call.SetVariantInventory? ==>
            && call.parent == reply.external
            && (call.variant in variantsReply.variants ==> call.external == variantsReply.variants[call.variant]))
  {
    hide ProductKeyOf, InventoryKeyOf, VariantKeyOf, VariantsKeyOf, Publishable;
  }

  // ---- When two calls carry the same retry key ----

  /** What every key depends on. */
  predicate SamePublication(d: Desired, e: Desired) {
    && d.facts.catalogRevision == e.facts.catalogRevision && d.policyRevision == e.policyRevision
    && d.published == e.published
  }

  predicate SameCategoryAndConfigurations(d: Facts, e: Facts) {
    && d.categoryFingerprint == e.categoryFingerprint && d.categoryVersion == e.categoryVersion
    && d.configurationsFingerprint == e.configurationsFingerprint && d.configurationsVersion == e.configurationsVersion
  }

  predicate SameVariantSet(d: Facts, e: Facts) {
    d.variantsFingerprint == e.variantsFingerprint && d.variantsVersion == e.variantsVersion
  }

  /** The i-th call of one sync and the j-th of another ask the same provider for the same thing. */
  predicate AskTheSame(d: Desired, i: nat, e: Desired, j: nat) {
    if i == 0 || j == 0 then
      // The product itself.
      i == j && SameCategoryAndConfigurations(d.facts, e.facts)
    else if (i == 1 && d.variants == []) || (j == 1 && e.variants == []) then
      // The stock of a product without variants.
      && i == j && d.variants == e.variants == []
      && SameCategoryAndConfigurations(d.facts, e.facts)
      && d.facts.inventoryRevision == e.facts.inventoryRevision && d.quantity == e.quantity
    else if i == 1 || j == 1 then
      // The set of variants.
      i == j && SameVariantSet(d.facts, e.facts)
    else
      // The stock of one variant.
      && i - 2 < |d.variants| && j - 2 < |e.variants| && d.variants[i - 2] == e.variants[j - 2]
      && SameVariantSet(d.facts, e.facts)
  }

  function KeyAt(provider: Bytes, p: Bytes, d: Desired, i: nat): Key
    requires i == 0 || i == 1 || i - 2 < |d.variants|
  {
    if i == 0 then ProductKeyOf(provider, p, d)
    else if i == 1 then if d.variants == [] then InventoryKeyOf(provider, p, d) else VariantsKeyOf(provider, p, d)
    else VariantKeyOf(provider, p, d, d.variants[i - 2])
  }

  lemma ScriptCarriesKeys(
    provider: Bytes, p: Bytes, d: Desired, mapped: Option<Mapping>, existing: map<Bytes, Bytes>, reply: UpsertReply,
    variants: VariantsReply, i: nat)
    requires i < |Script(provider, p, d, mapped, existing, reply, variants)|
    ensures i == 0 || i == 1 || i - 2 < |d.variants|
    ensures Script(provider, p, d, mapped, existing, reply, variants)[i].key == KeyAt(provider, p, d, i)
  {
    hide ProductKeyOf, InventoryKeyOf, VariantsKeyOf, VariantKeyOf;
  }

  lemma KeysAgreeIff(provider: Bytes, p: Bytes, d: Desired, i: nat, provider': Bytes, p': Bytes, d': Desired, j: nat)
    requires (i == 0 || i == 1 || i - 2 < |d.variants|) && (j == 0 || j == 1 || j - 2 < |d'.variants|)
    ensures KeyAt(provider, p, d, i) == KeyAt(provider', p', d', j) <==>
      provider == provider' && p == p' && SamePublication(d, d') && AskTheSame(d, i, d', j)
  {
  }

  /**
   * The calls of any two syncs, of any products on any providers and whatever the
   * providers answer, are hashed alike exactly when they ask the same thing: a retry
   * repeats its key, and nothing that changed keeps it.
   */
  lemma RetryKeysAgreeIff(
    provider: Bytes, p: Bytes, d: Desired, mapped: Option<Mapping>, existing: map<Bytes, Bytes>, reply: UpsertReply,
    variants: VariantsReply, i: nat,
    provider': Bytes, p': Bytes, d': Desired, mapped': Option<Mapping>, existing': map<Bytes, Bytes>,
    reply': UpsertReply, variants': VariantsReply, j: nat)
    requires i < |Script(provider, p, d, mapped, existing, reply, variants)|
    requires j < |Script(provider', p', d', mapped', existing', reply', variants')|
    requires Writable(Fields(Script(provider, p, d, mapped, existing, reply, variants)[i].key))
    requires Writable(Fields(Script(provider', p', d', mapped', existing', reply', variants')[j].key))
    ensures var a := Script(provider, p, d, mapped, existing, reply, variants)[i];
      var b := Script(provider', p', d', mapped', existing', reply', variants')[j];
      Encode(Fields(a.key)) == Encode(Fields(b.key)) <==>
        provider == provider' && p == p' && SamePublication(d, d') && AskTheSame(d, i, d', j)
  {
    hide *;
    ScriptCarriesKeys(provider, p, d, mapped, existing, reply, variants, i);
    ScriptCarriesKeys(provider', p', d', mapped', existing', reply', variants', j);
    KeysAgreeExactly(KeyAt(provider, p, d, i), KeyAt(provider', p', d', j));
    KeysAgreeIff(provider, p, d, i, provider', p', d', j);
  }

  // ---- A sync ----

  datatype Fault = NoFault | NotApplied | ReplyLost

  /** What happens around one store or provider call: others act, the call may fail, the provider answers. */
  datatype Moment = Moment(others: Tables, fault: Fault, product: UpsertReply, variants: VariantsReply)

  /** The rows of p as they are, all other rows as others left them. */
  function Merged(p: Bytes, mine: Tables, others: Tables): Tables {
    Tables(
      map q | q in mine.products.Keys + others.products.Keys
        && (if q == p then q in mine.products else q in others.products) ::
        if q == p then mine.products[q] else others.products[q],
      map c | c in mine.configurations.Keys + others.configurations.Keys
      && (if c.product == p then c in mine.configurations else c in others.configurations) ::
        if c.product == p then mine.configurations[c] else others.configurations[c],
      map v | v in mine.variants.Keys + others.variants.Keys
      && (if v.product == p then v in mine.variants else v in others.variants) ::
        if v.product == p then mine.variants[v] else others.variants[v])
  }

  /** What one product's row may become: created, moved by a proven transition, given its store. */
  predicate ProductProgress(before: Option<Mapping>, after: Option<Mapping>, reply: UpsertReply,
      store: Option<StoreId>) {
    match before
    case None => after == None || after == Some(Mapping(reply.external, store))
    case Some(m) =>
      && after.Some?
      && (after.value.store == m.store || (m.store.None? && after.value.store == store))
      && (after.value.external == m.external || (reply.sellableTransition && after.value.external == reply.external))
  }

  /** What one variant's row may become, once the whole returned set was found usable. */
  predicate VariantProgress(before: Option<VariantMapping>, after: Option<VariantMapping>, parent: Bytes,
      external: Bytes, store: Option<StoreId>) {
    || after == before
    || (before == None && after == Some(VariantMapping(parent, external, store)))
    || (before.Some? && before.value.external == before.value.parent == parent
          && after == Some(before.value.(external := external)))
  }

  ghost predicate VariantsProgress(
    p: Bytes, before: Tables, after: Tables, variants: seq<Variant>, parent: Bytes, reply: VariantsReply,
      store: Option<StoreId>)
  {
    forall v: Part | v.product == p && VariantRow(before, v) != VariantRow(after, v) ::
      && IsVariantOf(variants, v.id)
      && VariantProgress(VariantRow(before, v), VariantRow(after, v), parent, Lookup(reply.variants, v.id), store)
  }

  /** The first n variants are mapped to what the provider returned. */
  predicate MappedAsReturned(p: Bytes, t: Tables, variants: seq<Variant>, n: nat, reply: VariantsReply)
    requires n <= |variants|
  {
    forall j | 0 <= j < n ::
      Part(p, variants[j].id) in t.variants
        && t.variants[Part(p, variants[j].id)].external == Lookup(reply.variants, variants[j].id)
  }

  /** How many of the variants had no mapping. */
  function Unmapped(variants: seq<Variant>, existing: map<Bytes, Bytes>): nat {
    if variants == [] then 0
    else Unmapped(variants[..|variants| - 1], existing) + if variants[|variants| - 1].id in existing then 0 else 1
  }

  datatype SyncResult =
    | NoOp
    | Synced(mappingCreated: bool, inventoryUpdated: bool, variantsSynced: nat, variantMappingsCreated: nat,
      variantInventoryUpdated: nat)
    | Failed(error: ErrorKind)

  class CommerceService {
    const provider: Bytes
    const variantCapable: bool
    const stores: map<Bytes, StoreId>
    const moments: nat -> Moment
    var tick: nat
    var tables: Tables
    var calls: seq<Record>
    /** How many store and provider calls failed, or were refused by the store. */
    ghost var troubles: nat

    /** Every inventory call ever made addressed the durable mapping of its moment. */
    ghost predicate Valid()
      reads this
    {
      TablesOk(tables) && forall i | 0 <= i < |calls| :: Addressed(calls[i].call, calls[i].tables)
    }

    constructor (provider: Bytes, variantCapable: bool, stores: map<Bytes, StoreId>, moments: nat -> Moment)
      ensures Valid() && calls == []
    {
      this.provider, this.variantCapable, this.stores, this.moments := provider, variantCapable, stores, moments;
      tick := 0;
      tables := Tables(map[], map[], map[]);
      calls := [];
      troubles := 0;
    }

    function Store(p: Bytes): Option<StoreId> {
      if p in stores then Some(stores[p]) else None
    }

    /** Syncs of other products go on meanwhile. */
    method Others(p: Bytes) returns (m: Moment)
      requires Valid()
      modifies this`tick, this`tables, this`troubles
      ensures Valid() && SameRows(p, old(tables), tables)
      ensures m == moments(old(tick)) && tick == old(tick) + 1
      ensures troubles == old(troubles) + if m.fault != NoFault then 1 else 0
    {
      m := moments(tick);
      tick := tick + 1;
      troubles := troubles + if m.fault != NoFault then 1 else 0;
      var merged := Merged(p, tables, m.others);
      if TablesOk(merged) {
        tables := merged;
      }
    }

    /** A read of the product's own rows, which nobody else changes. */
    method Read(p: Bytes) returns (ok: bool)
      requires Valid()
      modifies this`tick, this`tables, this`troubles
      ensures Valid() && SameRows(p, old(tables), tables)
      ensures old(troubles) <= troubles && (!ok ==> old(troubles) < troubles)
    {
      var m := Others(p);
      return m.fault == NoFault;
    }

    /** One atomic write; seen is the state of the tables it met. */
    method Persist(w: Write) returns (error: Option<ErrorKind>, ghost seen: Tables)
      requires Valid()
      modifies this`tick, this`tables, this`troubles
      ensures Valid() && TablesOk(seen) && SameRows(w.Product(), old(tables), seen)
      ensures error.None? ==> Apply(seen, w).error.None? && tables == Apply(seen, w).tables
      ensures error.Some? ==> tables == seen || tables == Apply(seen, w).tables
      ensures old(troubles) <= troubles && (error.Some? ==> old(troubles) < troubles)
    {
      var m := Others(w.Product());
      seen := tables;
      ApplyKeepsConstraints(tables, w);
      if m.fault == NotApplied {
        return Some(Internal), seen;
      }
      var written := Apply(tables, w);
      tables := written.tables;
      troubles := troubles + if written.error.Some? then 1 else 0;
      error := if m.fault == ReplyLost then Some(Internal) else written.error;
    }

    /** One provider call, recorded with the tables as they are when it is made. */
    method CallProvider(call: Call) returns (m: Moment)
      requires Valid() && Addressed(call, tables)
      modifies this
      ensures Valid() && SameRows(call.product, old(tables), tables)
      ensures CallsOf(calls) == CallsOf(old(calls)) + [call]
      ensures old(calls) <= calls && calls[|calls| - 1].product == m.product
        && calls[|calls| - 1].variants == m.variants
      ensures old(troubles) <= troubles && (m.fault != NoFault ==> old(troubles) < troubles)
    {
      m := Others(call.product);
      StillAddressed(call, old(tables), tables);
      calls := calls + [Record(call, tables, m.product, m.variants)];
    }

    /** The checks on the whole returned set, before anything is persisted. */
    method ValidateVariants(variants: seq<Variant>, existing: map<Bytes, Bytes>, parent: Bytes, reply: VariantsReply)
      returns (error: Option<ErrorKind>)
      requires ValidExternal(parent)
      ensures error.None? <==> ValidSet(variants, existing, parent, reply)
    {
      hide VariantFits, TransitionFits;
      var desiredIDs;
      error, desiredIDs := CheckDesired(variants, existing, parent, reply);
      if error.Some? {
        return;
      }
      error := CheckReturned(variants, desiredIDs, reply);
      if error.Some? {
        return;
      }
      error := CheckTransitions(variants, desiredIDs, existing, parent, reply);
    }

    method CheckDesired(variants: seq<Variant>, existing: map<Bytes, Bytes>, parent: Bytes, reply: VariantsReply)
      returns (error: Option<ErrorKind>, desiredIDs: set<Bytes>)
      ensures error.None? <==> forall i | 0 <= i < |variants| :: VariantFits(variants[i].id, existing, parent, reply)
      ensures error.None? ==> forall id :: id in desiredIDs <==> IsVariantOf(variants, id)
    {
      desiredIDs := {};
      for i := 0 to |variants|
        invariant desiredIDs == set j | 0 <= j < i :: variants[j].id
        invariant forall j | 0 <= j < i :: VariantFits(variants[j].id, existing, parent, reply)
      {
        var id := variants[i].id;
        desiredIDs := desiredIDs + {id};
        var external := Lookup(reply.variants, id);
        if external == [] || |external| > MAX_EXTERNAL {
          assert !VariantFits(variants[i].id, existing, parent, reply);
          return Some(Internal), desiredIDs;
        }
        if id in existing && existing[id] != external {
          if Lookup(reply.transitions, id) != existing[id] || existing[id] != parent {
            assert !VariantFits(variants[i].id, existing, parent, reply);
            return Some(Conflict), desiredIDs;
          }
        }
      }
      error := None;
    }

    method CheckReturned(variants: seq<Variant>, desiredIDs: set<Bytes>, reply: VariantsReply)
        returns (error: Option<ErrorKind>)
      requires forall id :: id in desiredIDs <==> IsVariantOf(variants, id)
      ensures error.None? <==> forall id | id in reply.variants :: IsVariantOf(variants, id)
    {
      var returned := reply.variants.Keys;
      while returned != {}
        invariant returned <= reply.variants.Keys
        invariant forall id | id in reply.variants && id !in returned :: IsVariantOf(variants, id)
        decreases |returned|
      {
        var id :| id in returned;
        if id !in desiredIDs {
          return Some(Internal);
        }
        returned := returned - {id};
      }
      return None;
    }

    method CheckTransitions(
      variants: seq<Variant>, desiredIDs: set<Bytes>, existing: map<Bytes, Bytes>, parent: Bytes, reply: VariantsReply)
      returns (error: Option<ErrorKind>)
      requires forall id :: id in desiredIDs <==> IsVariantOf(variants, id)
      ensures error.None? <==> forall id | id in reply.transitions ::
        TransitionFits(variants, id, existing, parent, reply)
    {
      var claimed := reply.transitions.Keys;
      while claimed != {}
        invariant claimed <= reply.transitions.Keys
        invariant forall id | id in reply.transitions && id !in claimed ::
          TransitionFits(variants, id, existing, parent, reply)
        decreases |claimed|
      {
        var id :| id in claimed;
        var previous := reply.transitions[id];
        if id !in desiredIDs || Lookup(existing, id) != previous || previous != parent
          || Lookup(reply.variants, id) == previous {
          assert !TransitionFits(variants, id, existing, parent, reply);
          return Some(Conflict);
        }
        claimed := claimed - {id};
      }
      return None;
    }

    method PersistVariant(
      p: Bytes, variants: seq<Variant>, i: nat, w: Write, parent: Bytes, reply: VariantsReply, ghost start: Tables)
      returns (error: Option<ErrorKind>)
      requires Valid() && i < |variants| && MovesVariant(w, start, Part(p, variants[i].id), parent, reply, Store(p))
      requires ProductRow(start, p) == ProductRow(tables, p) && SameConfigurations(p, start, tables)
      requires VariantsProgress(p, start, tables, variants, parent, reply, Store(p))
        && MappedAsReturned(p, tables, variants, i, reply)
      modifies this`tick, this`tables, this`troubles
      ensures Valid() && ProductRow(start, p) == ProductRow(tables, p) && SameConfigurations(p, start, tables)
      ensures VariantsProgress(p, start, tables, variants, parent, reply, Store(p))
      ensures error.None? ==> MappedAsReturned(p, tables, variants, i + 1, reply)
      ensures old(troubles) <= troubles && (error.Some? ==> old(troubles) < troubles)
    {
      ghost var before := tables;
      ghost var seen;
      error, seen := Persist(w);
      SameRowsProgress(p, start, before, seen, variants, i, parent, reply, Store(p));
      VariantWriteProgress(p, start, seen, variants, i, w, parent, reply, Store(p));
    }

    /** Persists the returned identities one by one; the rows only move towards what was returned. */
    method PersistVariants(p: Bytes, variants: seq<Variant>, existing: map<Bytes, Bytes>, parent: Bytes,
        reply: VariantsReply)
      returns (error: Option<ErrorKind>, created: nat)
      requires Valid() && existing == ExistingVariants(tables, p) && ValidSet(variants, existing, parent, reply)
      modifies this`tick, this`tables, this`troubles
      ensures Valid() && ProductRow(old(tables), p) == ProductRow(tables, p)
        && SameConfigurations(p, old(tables), tables)
      ensures VariantsProgress(p, old(tables), tables, variants, parent, reply, Store(p))
      ensures error.None? ==>
        MappedAsReturned(p, tables, variants, |variants|, reply) && created == Unmapped(variants, existing)
      ensures old(troubles) <= troubles && (error.Some? ==> old(troubles) < troubles)
    {
      hide VariantFits, TransitionFits, VariantProgress, VariantsProgress, TablesOk, Addressed;
      created := 0;
      assert VariantsProgress(p, old(tables), tables, variants, parent, reply, Store(p))
        by { NothingYet(p, tables, variants, parent, reply, Store(p)); }
      for i := 0 to |variants|
        invariant Valid() && ProductRow(old(tables), p) == ProductRow(tables, p)
          && SameConfigurations(p, old(tables), tables)
        invariant VariantsProgress(p, old(tables), tables, variants, parent, reply, Store(p))
        invariant MappedAsReturned(p, tables, variants, i, reply)
        invariant created == Unmapped(variants[..i], existing) && old(troubles) <= troubles
      {
        assert variants[..i + 1][..i] == variants[..i];
        var id := variants[i].id;
        var next := Lookup(reply.variants, id);
        if id in existing && existing[id] == next {
          AlreadyMapped(p, old(tables), tables, variants, i, parent, reply, Store(p));
        } else {
          var w := if id in existing then UpdateVariant(Part(p, id), parent, existing[id], next, Store(p))
                   else CreateVariant(Part(p, id), parent, next, Store(p));
          WriteMoves(p, old(tables), variants, i, parent, reply, Store(p), w);
          error := PersistVariant(p, variants, i, w, parent, reply, old(tables));
          if error.Some? {
            return;
          }
          created := created + if id in existing then 0 else 1;
        }
      }
      assert variants[..|variants|] == variants;
      error := None;
    }

    /** Sends every variant its own quantity, in order. */
    method PublishVariants(p: Bytes, d: Desired, parent: Bytes, reply: VariantsReply)
        returns (error: Option<ErrorKind>, updated: nat)
      requires Valid() && p in tables.products && tables.products[p].external == parent
      requires MappedAsReturned(p, tables, d.variants, |d.variants|, reply)
      modifies this
      ensures Valid() && SameRows(p, old(tables), tables)
      ensures Follows(CallsOf(old(calls)), CallsOf(calls), InventoryCalls(provider, p, d, parent, reply))
      ensures error.None? ==>
        CallsOf(calls) == CallsOf(old(calls)) + InventoryCalls(provider, p, d, parent, reply) && updated == |d.variants|
      ensures old(calls) <= calls && old(troubles) <= troubles && (error.Some? ==> old(troubles) < troubles)
    {
      hide TablesOk, VariantKeyOf, ExistingVariants;
      updated := 0;
      var script := InventoryCalls(provider, p, d, parent, reply);
      for i := 0 to |d.variants|
        invariant Valid() && SameRows(p, old(tables), tables) && updated == i
        invariant CallsOf(calls) == CallsOf(old(calls)) + script[..i]
        invariant old(calls) <= calls && old(troubles) <= troubles
      {
        var v := d.variants[i];
        assert VariantRow(old(tables), Part(p, v.id)) == VariantRow(tables, Part(p, v.id));
        var m := CallProvider(SetVariantInventory(p, v.id, parent, Lookup(reply.variants, v.id), v.quantity,
          VariantKeyOf(provider, p, d, v)));
        assert script[..i + 1] == script[..i] + [script[i]];
        if m.fault != NoFault {
          return Some(Internal), updated;
        }
        updated := updated + 1;
      }
      assert script[..|d.variants|] == script;
      error := None;
    }

    /**
     * Reconciles the variants of a mapped product. No variant row changes unless the
     * whole returned set was usable, no quantity is sent before every variant is
     * mapped, and rows keep the parent they were created under.
     */
    method SyncVariants(p: Bytes, d: Desired, parent: Bytes)
      returns (error: Option<ErrorKind>, reply: VariantsReply, created: nat, updated: nat)
      requires Valid() && p in tables.products && tables.products[p].external == parent && d.variants != []
      modifies this
      ensures Valid() && ProductRow(old(tables), p) == ProductRow(tables, p)
        && SameConfigurations(p, old(tables), tables)
      ensures VariantsProgress(p, old(tables), tables, d.variants, parent, reply, Store(p))
      ensures ValidSet(d.variants, ExistingVariants(old(tables), p), parent, reply)
        || SameVariants(p, old(tables), tables)
      ensures Follows(CallsOf(old(calls)), CallsOf(calls),
        VariantCalls(provider, p, d, parent, ExistingVariants(old(tables), p), reply))
      ensures error.None? ==>
        && ValidSet(d.variants, ExistingVariants(old(tables), p), parent, reply)
        && MappedAsReturned(p, tables, d.variants, |d.variants|, reply)
        && CallsOf(calls) == CallsOf(old(calls))
              + VariantCalls(provider, p, d, parent, ExistingVariants(old(tables), p), reply)
        && created == Unmapped(d.variants, ExistingVariants(old(tables), p)) && updated == |d.variants|
      ensures old(calls) <= calls && (|calls| > |old(calls)| ==> reply == calls[|old(calls)|].variants)
      ensures old(troubles) <= troubles && (error.Some? ==>
        || !variantCapable || old(troubles) < troubles
        || (|calls| > |old(calls)| && !ValidSet(d.variants, ExistingVariants(old(tables), p), parent, reply)))
    {
      hide ValidSet, VariantProgress, TablesOk, Addressed, MappedAsReturned, Follows, CallsOf, InventoryCalls,
        VariantsKeyOf, ExistingVariants;
      reply, created, updated := VariantsReply(map[], map[]), 0, 0;
      forall script ensures Follows(CallsOf(calls), CallsOf(calls), script) {
        FollowsNothing(CallsOf(calls), script);
      }
      if !variantCapable {
        return Some(Conflict), reply, 0, 0;
      }
      var listed := Read(p);
      if !listed {
        return Some(Internal), reply, 0, 0;
      }
      SameExisting(p, old(tables), tables);
      var existing := ExistingVariants(tables, p);
      assert Addressed(UpsertVariants(p, parent, existing, d.published, VariantsKeyOf(provider, p, d)), tables)
        by { UpsertsAreAddressed(); }
      var m := CallProvider(UpsertVariants(p, parent, existing, d.published, VariantsKeyOf(provider, p, d)));
      reply := m.variants;
      ghost var first := UpsertVariants(p, parent, existing, d.published, VariantsKeyOf(provider, p, d));
      SameExisting(p, old(tables), tables);
      FollowsNothing(CallsOf(calls), InventoryCalls(provider, p, d, parent, reply));
      FollowsOne(CallsOf(old(calls)), first, CallsOf(calls), InventoryCalls(provider, p, d, parent, reply));
      if m.fault != NoFault {
        return Some(Internal), reply, 0, 0;
      }
      assert ValidExternal(parent) by { MappedIsValid(tables, p); }
      error := ValidateVariants(d.variants, existing, parent, reply);
      if error.Some? {
        return;
      }
      ghost var validated := tables;
      error, created := PersistVariants(p, d.variants, existing, parent, reply);
      ProgressSince(p, old(tables), validated, tables, d.variants, parent, reply, Store(p));
      if error.Some? {
        return;
      }
      ghost var persisted := tables;
      error, updated := PublishVariants(p, d, parent, reply);
      FollowsOne(CallsOf(old(calls)), first, CallsOf(calls), InventoryCalls(provider, p, d, parent, reply));
      ProgressUntil(p, old(tables), persisted, tables, d.variants, parent, reply, Store(p));
      StillMapped(p, persisted, tables, d.variants, reply);
    }

    /** Stores every returned configuration identity; a failure stops the sync. */
    method PersistConfigurations(p: Bytes, reply: UpsertReply) returns (error: Option<ErrorKind>)
      requires Valid()
      modifies this`tick, this`tables, this`troubles
      ensures Valid() && ProductRow(old(tables), p) == ProductRow(tables, p) && SameVariants(p, old(tables), tables)
      ensures error.None? ==> ConfigurationsStored(p, tables, reply, {})
      ensures old(troubles) <= troubles && (error.Some? ==> old(troubles) < troubles)
    {
      var remaining := reply.configurations.Keys;
      while remaining != {}
        invariant remaining <= reply.configurations.Keys
        invariant Valid() && ProductRow(old(tables), p) == ProductRow(tables, p) && SameVariants(p, old(tables), tables)
        invariant ConfigurationsStored(p, tables, reply, remaining) && old(troubles) <= troubles
        decreases |remaining|
      {
        var c :| c in remaining;
        ghost var before, seen := tables, tables;
        error, seen := Persist(UpsertConfiguration(Part(p, c), reply.external, reply.configurations[c]));
        ConfigurationsStay(p, before, seen, reply, remaining);
        if error.Some? {
          return;
        }
        remaining := remaining - {c};
      }
      error := None;
    }

    /** Brings the product's own row to the returned identity: first mapping, or compare-and-set from the one known. */
    method PersistProduct(p: Bytes, mapped: Option<Mapping>, reply: UpsertReply) returns (error: Option<ErrorKind>)
      requires Valid() && ProductRow(tables, p) == mapped
      requires mapped.Some? && mapped.value.external != reply.external ==> reply.sellableTransition
      modifies this`tick, this`tables, this`troubles
      ensures Valid() && SameVariants(p, old(tables), tables)
      ensures ProductProgress(mapped, ProductRow(tables, p), reply, Store(p))
      ensures error.None? ==> p in tables.products && tables.products[p].external == reply.external
      ensures old(troubles) <= troubles && (error.Some? ==> old(troubles) < troubles)
    {
      hide TablesOk, Addressed;
      ghost var seen;
      var w := if mapped.None? then CreateProduct(p, reply.external, Store(p))
        else UpdateProduct(p, mapped.value.external, reply.external);
      error, seen := Persist(w);
      ProductWriteProgress(seen, p, w, mapped, reply, Store(p));
    }

    /**
     * The provider's product is brought up to date and its identity made durable:
     * one call, then writes that either create the mapping or move it by a proven
     * transition. Variant rows are not touched.
     */
    method Identify(p: Bytes, d: Desired) returns (error: Option<ErrorKind>, reply: UpsertReply)
      requires Valid()
      modifies this
      ensures Valid() && SameVariants(p, old(tables), tables)
      ensures CallsOf(calls) == CallsOf(old(calls)) + [UpsertCall(provider, p, d, ProductRow(old(tables), p))]
      ensures ProductProgress(ProductRow(old(tables), p), ProductRow(tables, p), reply, Store(p))
      ensures error.None? ==> Identified(p, ProductRow(old(tables), p), tables, reply)
      ensures old(calls) <= calls && |calls| == |old(calls)| + 1 && reply == calls[|old(calls)|].product
      ensures old(troubles) <= troubles
        && (error.Some? ==> old(troubles) < troubles || !Usable(ProductRow(old(tables), p), reply))
    {
      hide TablesOk, CallsOf, ProductKeyOf;
      var mapped := ProductRow(tables, p);
      var m := CallProvider(UpsertCall(provider, p, d, mapped));
      reply := m.product;
      if m.fault != NoFault || reply.external == [] || |reply.external| > MAX_EXTERNAL {
        return Some(Internal), reply;
      }
      if mapped.Some? && mapped.value.external != reply.external && !reply.sellableTransition {
        return Some(Conflict), reply;
      }
      error := PersistProduct(p, mapped, reply);
      if error.None? {
        error := PersistConfigurations(p, reply);
      }
    }

    /** Variants cannot be represented, or the returned set is not usable. */
    ghost predicate VariantsRefused(p: Bytes, d: Desired, made: int, before: Tables, reply: UpsertReply,
        variantsReply: VariantsReply) {
      d.variants != [] && made > 0
      && (!variantCapable
          || (made > 1 && !ValidSet(d.variants, ExistingVariants(before, p), reply.external, variantsReply)))
    }

    /** Availability goes out per variant, or once for a product without variants. */
    method Publish(p: Bytes, d: Desired, reply: UpsertReply)
      returns (error: Option<ErrorKind>, variantsReply: VariantsReply, created: nat)
      requires Valid() && p in tables.products && tables.products[p].external == reply.external
      modifies this
      ensures Valid() && ProductRow(old(tables), p) == ProductRow(tables, p)
        && SameConfigurations(p, old(tables), tables)
      ensures Follows(CallsOf(old(calls)), CallsOf(calls),
        Availability(provider, p, d, ExistingVariants(old(tables), p), reply, variantsReply))
      ensures VariantsMoved(p, d, old(tables), tables, reply, variantsReply, Store(p))
      ensures error.None? ==>
        && CallsOf(calls) == CallsOf(old(calls))
              + Availability(provider, p, d, ExistingVariants(old(tables), p), reply, variantsReply)
        && VariantsSettled(p, d, old(tables), tables, reply, variantsReply)
        && created == Unmapped(d.variants, ExistingVariants(old(tables), p))
      ensures old(calls) <= calls
        && (d.variants != [] && |calls| > |old(calls)| ==> variantsReply == calls[|old(calls)|].variants)
      ensures old(troubles) <= troubles
      ensures error.Some? ==>
        || old(troubles) < troubles
        || VariantsRefused(p, d, |calls| - |old(calls)| + 1, old(tables), reply, variantsReply)
    {
      hide TablesOk, CallsOf, VariantCalls, InventoryKeyOf, ValidSet, VariantProgress, ExistingVariants,
        MappedAsReturned;
      if d.variants != [] {
        var updated;
        error, variantsReply, created, updated := SyncVariants(p, d, reply.external);
      } else {
        variantsReply, created := VariantsReply(map[], map[]), 0;
        var m := CallProvider(SetInventory(p, reply.external, d.quantity, InventoryKeyOf(provider, p, d)));
        error := if m.fault != NoFault then Some(Internal) else None;
      }
    }

    method Converge(p: Bytes, d: Desired) returns (r: SyncResult, reply: UpsertReply, variantsReply: VariantsReply)
      requires Valid()
      modifies this
      ensures Valid() && !r.NoOp?
        && Follows(CallsOf(old(calls)), CallsOf(calls), ScriptFrom(provider, p, d, old(tables), reply, variantsReply))
      ensures ProductProgress(ProductRow(old(tables), p), ProductRow(tables, p), reply, Store(p))
      ensures VariantsMoved(p, d, old(tables), tables, reply, variantsReply, Store(p))
      ensures r.Synced? ==>
        && CallsOf(calls) == CallsOf(old(calls)) + ScriptFrom(provider, p, d, old(tables), reply, variantsReply)
        && Identified(p, ProductRow(old(tables), p), tables, reply)
        && VariantsSettled(p, d, old(tables), tables, reply, variantsReply)
        && r == Outcome(p, d, old(tables))
      ensures Answered(d, old(calls), calls, reply, variantsReply) && |calls| > |old(calls)|
      ensures old(troubles) <= troubles
      ensures r.Failed? ==>
        || old(troubles) < troubles || !Usable(ProductRow(old(tables), p), reply)
        || VariantsRefused(p, d, |calls| - |old(calls)|, old(tables), reply, variantsReply)
    {
      hide TablesOk, Addressed, CallsOf, Follows, Availability, ExistingVariants, ProductProgress, VariantsMoved,
        VariantsSettled, UpsertCall, SameRows;
      variantsReply := VariantsReply(map[], map[]);
      var mapped := ProductRow(tables, p);
      var error;
      error, reply := Identify(p, d);
      ghost var identified, first := tables, UpsertCall(provider, p, d, mapped);
      SameExistingVariants(p, old(tables), tables);
      NothingMoved(p, d, old(tables), tables, reply, variantsReply, Store(p));
      FollowsNothing(CallsOf(calls),
        Availability(provider, p, d, ExistingVariants(old(tables), p), reply, variantsReply));
      FollowsOne(CallsOf(old(calls)), first, CallsOf(calls),
        Availability(provider, p, d, ExistingVariants(old(tables), p), reply, variantsReply));
      if error.Some? {
        return Failed(error.value), reply, variantsReply;
      }
      var created;
      error, variantsReply, created := Publish(p, d, reply);
      FollowsOne(CallsOf(old(calls)), first, CallsOf(calls),
        Availability(provider, p, d, ExistingVariants(old(tables), p), reply, variantsReply));
      MovedSince(p, d, old(tables), identified, tables, reply, variantsReply, Store(p));
      StillIdentified(p, mapped, identified, tables, reply);
      r := if error.Some? then Failed(error.value)
        else Synced(mapped.None?, d.variants == [], |d.variants|, created, |d.variants|);
    }

    /**
     * SyncProduct for one product, under its lock, with whatever the catalog says or
     * fails to say. The calls follow the script; the rows of the product change only
     * as ProductProgress and VariantsMoved allow, whether the sync succeeds or stops
     * anywhere; and success means all of it is done.
     */
    method SyncProduct(p: Bytes, catalog: Result<Facts, ErrorKind>)
        returns (r: SyncResult, reply: UpsertReply, variantsReply: VariantsReply)
      requires Valid()
      modifies this
      ensures Valid()
      ensures p == [] || catalog.Failure? || ScopeConflict(ProductRow(old(tables), p), Store(p)) ==>
        r.Failed? && calls == old(calls) && SameRows(p, old(tables), tables)
      ensures catalog.Success? ==>
        var d := DesiredOf(catalog.value);
        && Follows(CallsOf(old(calls)), CallsOf(calls), ScriptFrom(provider, p, d, old(tables), reply, variantsReply))
        && ProductProgress(ProductRow(old(tables), p), ProductRow(tables, p), reply, Store(p))
        && VariantsMoved(p, d, old(tables), tables, reply, variantsReply, Store(p))
        && (!d.published && ProductRow(old(tables), p).None? ==>
              !r.Synced? && calls == old(calls) && SameRows(p, old(tables), tables))
        && (r.NoOp? ==> !d.published && ProductRow(old(tables), p).None?)
        && (r.Synced? ==>
              && CallsOf(calls) == CallsOf(old(calls)) + ScriptFrom(provider, p, d, old(tables), reply, variantsReply)
              && Identified(p, ProductRow(old(tables), p), tables, reply)
              && VariantsSettled(p, d, old(tables), tables, reply, variantsReply)
              && r == Outcome(p, d, old(tables)))
      ensures catalog.Success? ==> Answered(DesiredOf(catalog.value), old(calls), calls, reply, variantsReply)
      ensures r.Failed? ==>
        || p == [] || catalog.Failure? || ScopeConflict(ProductRow(old(tables), p), Store(p))
        || old(troubles) < troubles
        || (|calls| > |old(calls)| && !Usable(ProductRow(old(tables), p), reply))
        || VariantsRefused(p, DesiredOf(catalog.value), |calls| - |old(calls)|, old(tables), reply, variantsReply)
    {
      hide TablesOk, Addressed, ExistingVariants, Follows, ScriptFrom, CallsOf, Outcome, VariantsSettled;
      reply, variantsReply := UpsertReply([], map[], false), VariantsReply(map[], map[]);
      if catalog.Success? {
        StoppedEarly(provider, p, DesiredOf(catalog.value), tables, tables, CallsOf(calls), reply, variantsReply,
          Store(p));
      }
      if p == [] {
        return Failed(InvalidInput), reply, variantsReply;
      }
      if catalog.Failure? {
        return Failed(catalog.error), reply, variantsReply;
      }
      var d := GetDesiredCommerceProduct(catalog.value);
      var found := Read(p);
      StoppedEarly(provider, p, d, old(tables), tables, CallsOf(calls), reply, variantsReply, Store(p));
      if !found {
        return Failed(Internal), reply, variantsReply;
      }
      var mapped := ProductRow(tables, p);
      if mapped.Some? && mapped.value.store.None? && Store(p).Some? {
        var w := CreateProduct(p, mapped.value.external, Store(p));
        ghost var seen, before := tables, tables;
        var error;
        error, seen := Persist(w);
        Adopted(p, seen, w, mapped, Store(p));
        NothingMoved(p, d, old(tables), tables, reply, variantsReply, Store(p));
        if error.Some? {
          return Failed(error.value), reply, variantsReply;
        }
      } else if ScopeConflict(mapped, Store(p)) {
        return Failed(Conflict), reply, variantsReply;
      }
      if !d.published && mapped.None? {
        return NoOp, reply, variantsReply;
      }
      ghost var adopted := tables;
      r, reply, variantsReply := Converge(p, d);
      SinceAdopted(p, d, old(tables), adopted, tables, reply, variantsReply, Store(p));
    }
  }

  /**
   * The product's own identity is durable: what the provider returned, reached the first
   * time or by a proven transition.
   */
  ghost predicate Identified(p: Bytes, mapped: Option<Mapping>, t: Tables, reply: UpsertReply) {
    && Usable(mapped, reply) && p in t.products && t.products[p].external == reply.external
    && ConfigurationsStored(p, t, reply, {})
  }

  /** Variant rows changed only towards a returned set that was usable as a whole. */
  ghost predicate VariantsMoved(p: Bytes, d: Desired, before: Tables, after: Tables, reply: UpsertReply,
      variantsReply: VariantsReply, store: Option<StoreId>) {
    && VariantsProgress(p, before, after, d.variants, reply.external, variantsReply, store)
    && (ValidSet(d.variants, ExistingVariants(before, p), reply.external, variantsReply)
          || SameVariants(p, before, after))
  }

  ghost predicate VariantsSettled(p: Bytes, d: Desired, before: Tables, after: Tables, reply: UpsertReply,
      variantsReply: VariantsReply) {
    d.variants != [] ==>
      && ValidSet(d.variants, ExistingVariants(before, p), reply.external, variantsReply)
      && MappedAsReturned(p, after, d.variants, |d.variants|, variantsReply)
  }

  /** What a sync worked with is what the provider answered to its calls. */
  predicate Answered(d: Desired, before: seq<Record>, after: seq<Record>, reply: UpsertReply,
      variantsReply: VariantsReply) {
    && before <= after
    && (|after| > |before| ==> reply == after[|before|].product)
    && (|after| > |before| + 1 && d.variants != [] ==> variantsReply == after[|before| + 1].variants)
  }

  predicate ScopeConflict(mapped: Option<Mapping>, store: Option<StoreId>) {
    mapped.Some? && mapped.value.store.Some? && store.Some? && mapped.value.store != store
  }

  function Outcome(p: Bytes, d: Desired, before: Tables): SyncResult {
    Synced(ProductRow(before, p).None?, d.variants == [], |d.variants|,
      Unmapped(d.variants, ExistingVariants(before, p)), |d.variants|)
  }

  function ScriptFrom(provider: Bytes, p: Bytes, d: Desired, before: Tables, reply: UpsertReply,
      variantsReply: VariantsReply): seq<Call> {
    Script(provider, p, d, ProductRow(before, p), ExistingVariants(before, p), reply, variantsReply)
  }

  lemma SameExistingVariants(p: Bytes, t: Tables, u: Tables)
    requires SameVariants(p, t, u)
    ensures ExistingVariants(t, p) == ExistingVariants(u, p)
  {
    SameExisting(p, t.(products := map[], configurations := map[]), u.(products := map[], configurations := map[]));
    assert ExistingVariants(t, p) == ExistingVariants(t.(products := map[], configurations := map[]), p);
    assert ExistingVariants(u, p) == ExistingVariants(u.(products := map[], configurations := map[]), p);
  }

  lemma NothingMoved(p: Bytes, d: Desired, t: Tables, u: Tables, reply: UpsertReply, variantsReply: VariantsReply,
      store: Option<StoreId>)
    requires SameVariants(p, t, u)
    ensures VariantsMoved(p, d, t, u, reply, variantsReply, store)
  {
  }

  lemma MovedSince(p: Bytes, d: Desired, s: Tables, t: Tables, u: Tables, reply: UpsertReply,
      variantsReply: VariantsReply, store: Option<StoreId>)
    requires SameVariants(p, s, t)
    ensures VariantsMoved(p, d, t, u, reply, variantsReply, store) ==>
      VariantsMoved(p, d, s, u, reply, variantsReply, store)
    ensures VariantsSettled(p, d, t, u, reply, variantsReply) ==> VariantsSettled(p, d, s, u, reply, variantsReply)
  {
    SameExistingVariants(p, s, t);
  }

  lemma StillIdentified(p: Bytes, mapped: Option<Mapping>, t: Tables, u: Tables, reply: UpsertReply)
    requires Identified(p, mapped, t, reply) && ProductRow(t, p) == ProductRow(u, p) && SameConfigurations(p, t, u)
    ensures Identified(p, mapped, u, reply)
  {
    forall c | c in reply.configurations
      ensures ConfigurationRow(u, Part(p, c)) == Some(ConfigurationMapping(reply.external, reply.configurations[c]))
    {
      assert ConfigurationRow(t, Part(p, c)) == ConfigurationRow(u, Part(p, c));
    }
  }

  lemma SinceAdopted(p: Bytes, d: Desired, s: Tables, t: Tables, u: Tables, reply: UpsertReply,
      variantsReply: VariantsReply, store: Option<StoreId>)
    requires SameVariants(p, s, t)
    requires ProductRow(t, p) == ProductRow(s, p) || (ProductRow(s, p).Some? && ProductRow(s, p).value.store.None?
             && ProductRow(t, p) == Some(ProductRow(s, p).value.(store := store)))
    requires ProductProgress(ProductRow(t, p), ProductRow(u, p), reply, store)
      && VariantsMoved(p, d, t, u, reply, variantsReply, store)
    ensures ProductProgress(ProductRow(s, p), ProductRow(u, p), reply, store)
      && VariantsMoved(p, d, s, u, reply, variantsReply, store)
    ensures forall provider ::
      ScriptFrom(provider, p, d, t, reply, variantsReply) == ScriptFrom(provider, p, d, s, reply, variantsReply)
    ensures Identified(p, ProductRow(t, p), u, reply) ==> Identified(p, ProductRow(s, p), u, reply)
    ensures VariantsSettled(p, d, t, u, reply, variantsReply) ==> VariantsSettled(p, d, s, u, reply, variantsReply)
    ensures Outcome(p, d, t) == Outcome(p, d, s)
    ensures ExistingVariants(t, p) == ExistingVariants(s, p)
    ensures Usable(ProductRow(t, p), reply) <==> Usable(ProductRow(s, p), reply)
  {
    SameExistingVariants(p, s, t);
    MovedSince(p, d, s, t, u, reply, variantsReply, store);
  }

  lemma StoppedEarly(provider: Bytes, p: Bytes, d: Desired, t: Tables, u: Tables, calls: seq<Call>, reply: UpsertReply,
                     variantsReply: VariantsReply, store: Option<StoreId>)
    requires SameRows(p, t, u)
    ensures Follows(calls, calls, ScriptFrom(provider, p, d, t, reply, variantsReply))
    ensures VariantsMoved(p, d, t, u, reply, variantsReply, store)
    ensures ProductProgress(ProductRow(t, p), ProductRow(u, p), reply, store)
  {
    FollowsNothing(calls, ScriptFrom(provider, p, d, t, reply, variantsReply));
  }

  predicate ConfigurationsStored(p: Bytes, t: Tables, reply: UpsertReply, remaining: set<Bytes>) {
    forall c | c in reply.configurations && c !in remaining ::
      ConfigurationRow(t, Part(p, c)) == Some(ConfigurationMapping(reply.external, reply.configurations[c]))
  }

  lemma ConfigurationsStay(p: Bytes, t: Tables, u: Tables, reply: UpsertReply, remaining: set<Bytes>)
    requires SameRows(p, t, u) && ConfigurationsStored(p, t, reply, remaining)
    ensures ConfigurationsStored(p, u, reply, remaining)
  {
    forall c | c in reply.configurations && c !in remaining
      ensures ConfigurationRow(u, Part(p, c)) == Some(ConfigurationMapping(reply.external, reply.configurations[c]))
    {
      assert ConfigurationRow(t, Part(p, c)) == ConfigurationRow(u, Part(p, c));
    }
  }

  /** Adopting the store of a product moves no identity. */
  lemma Adopted(p: Bytes, seen: Tables, w: Write, mapped: Option<Mapping>, store: Option<StoreId>)
    requires mapped.Some? && mapped.value.store.None? && ProductRow(seen, p) == mapped
      && w == CreateProduct(p, mapped.value.external, store)
    ensures var u := Apply(seen, w).tables;
      && u.variants == seen.variants && u.configurations == seen.configurations
      && (ProductRow(u, p) == mapped || ProductRow(u, p) == Some(mapped.value.(store := store)))
  {
  }

  lemma ProductWriteProgress(seen: Tables, p: Bytes, w: Write, mapped: Option<Mapping>, reply: UpsertReply,
      store: Option<StoreId>)
    requires ProductRow(seen, p) == mapped
    requires mapped.Some? && mapped.value.external != reply.external ==> reply.sellableTransition
    requires w == if mapped.None? then CreateProduct(p, reply.external, store)
      else UpdateProduct(p, mapped.value.external, reply.external)
    ensures var u := Apply(seen, w).tables;
      && u.variants == seen.variants && u.configurations == seen.configurations
      && ProductProgress(mapped, ProductRow(seen, p), reply, store)
      && ProductProgress(mapped, ProductRow(u, p), reply, store)
      && (Apply(seen, w).error.None? ==> p in u.products && u.products[p].external == reply.external)
  {
    hide ExternalTaken;
  }

  lemma UpsertsAreAddressed()
    ensures forall call: Call, t | call.UpsertVariants? || call.UpsertProduct? :: Addressed(call, t)
  {
  }

  lemma MappedIsValid(t: Tables, p: Bytes)
    requires TablesOk(t) && p in t.products
    ensures ValidExternal(t.products[p].external)
  {
  }

  lemma SameExisting(p: Bytes, t: Tables, u: Tables)
    requires SameRows(p, t, u)
    ensures ExistingVariants(t, p) == ExistingVariants(u, p)
  {
    forall v: Part | v.product == p ensures VariantRow(t, v) == VariantRow(u, v) {
    }
    assert ExistingVariants(t, p).Keys == ExistingVariants(u, p).Keys by {
      forall id ensures id in ExistingVariants(t, p) <==> id in ExistingVariants(u, p) {
        assert VariantRow(t, Part(p, id)) == VariantRow(u, Part(p, id));
        assert id in ExistingVariants(t, p) ==> Part(p, id) in t.variants;
        assert id in ExistingVariants(u, p) ==> Part(p, id) in u.variants;
      }
    }
    forall id | id in ExistingVariants(t, p) ensures ExistingVariants(t, p)[id] == ExistingVariants(u, p)[id] {
      assert VariantRow(t, Part(p, id)) == VariantRow(u, Part(p, id)) && Part(p, id) in t.variants;
    }
  }

  lemma ProgressSince(p: Bytes, s: Tables, t: Tables, u: Tables, variants: seq<Variant>, parent: Bytes,
      reply: VariantsReply, store: Option<StoreId>)
    requires SameRows(p, s, t) && VariantsProgress(p, t, u, variants, parent, reply, store)
    ensures VariantsProgress(p, s, u, variants, parent, reply, store)
  {
  }

  lemma ProgressUntil(p: Bytes, s: Tables, t: Tables, u: Tables, variants: seq<Variant>, parent: Bytes,
      reply: VariantsReply, store: Option<StoreId>)
    requires VariantsProgress(p, s, t, variants, parent, reply, store) && SameRows(p, t, u)
    ensures VariantsProgress(p, s, u, variants, parent, reply, store)
  {
  }

  lemma StillMapped(p: Bytes, t: Tables, u: Tables, variants: seq<Variant>, reply: VariantsReply)
    requires SameRows(p, t, u) && MappedAsReturned(p, t, variants, |variants|, reply)
    ensures MappedAsReturned(p, u, variants, |variants|, reply)
  {
    forall j | 0 <= j < |variants|
      ensures Part(p, variants[j].id) in u.variants
        && u.variants[Part(p, variants[j].id)].external == Lookup(reply.variants, variants[j].id)
    {
      assert VariantRow(t, Part(p, variants[j].id)) == VariantRow(u, Part(p, variants[j].id));
    }
  }

  lemma NothingYet(p: Bytes, t: Tables, variants: seq<Variant>, parent: Bytes, reply: VariantsReply,
      store: Option<StoreId>)
    ensures VariantsProgress(p, t, t, variants, parent, reply, store)
  {
  }

  lemma AlreadyMapped(p: Bytes, start: Tables, t: Tables, variants: seq<Variant>, i: nat, parent: Bytes,
      reply: VariantsReply, store: Option<StoreId>)
    requires i < |variants| && VariantsProgress(p, start, t, variants, parent, reply, store)
      && MappedAsReturned(p, t, variants, i, reply)
    requires variants[i].id in ExistingVariants(start, p)
      && ExistingVariants(start, p)[variants[i].id] == Lookup(reply.variants, variants[i].id)
    ensures MappedAsReturned(p, t, variants, i + 1, reply)
  {
    var v := Part(p, variants[i].id);
    assert v in start.variants && start.variants[v].external == Lookup(reply.variants, v.id);
    assert VariantRow(start, v) == VariantRow(t, v);
  }

  lemma WriteMoves(p: Bytes, start: Tables, variants: seq<Variant>, i: nat, parent: Bytes, reply: VariantsReply,
      store: Option<StoreId>, w: Write)
    requires i < |variants| && ValidSet(variants, ExistingVariants(start, p), parent, reply)
    requires var id, existing := variants[i].id, ExistingVariants(start, p);
      if id in existing then
        existing[id] != Lookup(reply.variants, id)
          && w == UpdateVariant(Part(p, id), parent, existing[id], Lookup(reply.variants, id), store)
      else w == CreateVariant(Part(p, id), parent, Lookup(reply.variants, id), store)
    ensures MovesVariant(w, start, Part(p, variants[i].id), parent, reply, store)
  {
    assert VariantFits(variants[i].id, ExistingVariants(start, p), parent, reply);
    var v := Part(p, variants[i].id);
    if v in start.variants {
      assert v.id in ExistingVariants(start, p) && ExistingVariants(start, p)[v.id] == start.variants[v].external;
    }
  }

  /** A write that maps a variant to what was returned: a first mapping, or the proven move from parent to child. */
  predicate MovesVariant(w: Write, start: Tables, v: Part, parent: Bytes, reply: VariantsReply,
      store: Option<StoreId>) {
    var next := Lookup(reply.variants, v.id);
    match VariantRow(start, v)
    case None => w == CreateVariant(v, parent, next, store)
    case Some(row) => row.external == parent && w == UpdateVariant(v, parent, row.external, next, store)
  }

  lemma SameRowsProgress(p: Bytes, start: Tables, t: Tables, u: Tables, variants: seq<Variant>, i: nat, parent: Bytes,
                         reply: VariantsReply, store: Option<StoreId>)
    requires i <= |variants| && SameRows(p, t, u)
    requires ProductRow(start, p) == ProductRow(t, p) && SameConfigurations(p, start, t)
    requires VariantsProgress(p, start, t, variants, parent, reply, store) && MappedAsReturned(p, t, variants, i, reply)
    ensures ProductRow(start, p) == ProductRow(u, p) && SameConfigurations(p, start, u)
    ensures VariantsProgress(p, start, u, variants, parent, reply, store) && MappedAsReturned(p, u, variants, i, reply)
  {
    forall j | 0 <= j < i
      ensures Part(p, variants[j].id) in u.variants
        && u.variants[Part(p, variants[j].id)].external == Lookup(reply.variants, variants[j].id) {
      assert VariantRow(t, Part(p, variants[j].id)) == VariantRow(u, Part(p, variants[j].id));
    }
  }

  lemma VariantRowAfter(start: Tables, seen: Tables, v: Part, w: Write, parent: Bytes, reply: VariantsReply,
      store: Option<StoreId>)
    requires MovesVariant(w, start, v, parent, reply, store)
    requires VariantProgress(VariantRow(start, v), VariantRow(seen, v), parent, Lookup(reply.variants, v.id), store)
    ensures var u := Apply(seen, w).tables;
      && u == seen.(variants := u.variants)
      && (forall x: Part | x != v :: VariantRow(u, x) == VariantRow(seen, x))
      && VariantProgress(VariantRow(start, v), VariantRow(u, v), parent, Lookup(reply.variants, v.id), store)
      && (Apply(seen, w).error.None? ==> v in u.variants && u.variants[v].external == Lookup(reply.variants, v.id))
  {
    hide PairTaken, PairTakenInStore;
  }

  lemma VariantWriteProgress(p: Bytes, start: Tables, seen: Tables, variants: seq<Variant>, i: nat, w: Write,
      parent: Bytes,
                             reply: VariantsReply, store: Option<StoreId>)
    requires i < |variants| && MovesVariant(w, start, Part(p, variants[i].id), parent, reply, store)
    requires ProductRow(start, p) == ProductRow(seen, p) && SameConfigurations(p, start, seen)
    requires VariantsProgress(p, start, seen, variants, parent, reply, store)
      && MappedAsReturned(p, seen, variants, i, reply)
    ensures var u := Apply(seen, w).tables;
      && ProductRow(start, p) == ProductRow(u, p) && SameConfigurations(p, start, u)
      && VariantsProgress(p, start, u, variants, parent, reply, store)
      && (Apply(seen, w).error.None? ==> MappedAsReturned(p, u, variants, i + 1, reply))
  {
    hide Apply, MovesVariant, VariantProgress;
    var v, u := Part(p, variants[i].id), Apply(seen, w).tables;
    assert IsVariantOf(variants, v.id);
    assert VariantProgress(VariantRow(start, v), VariantRow(seen, v), parent, Lookup(reply.variants, v.id), store) by {
      NoProgressIsProgress(VariantRow(start, v), parent, Lookup(reply.variants, v.id), store);
    }
    VariantRowAfter(start, seen, v, w, parent, reply, store);
    forall j | 0 <= j < i && Apply(seen, w).error.None?
      ensures Part(p, variants[j].id) in u.variants
        && u.variants[Part(p, variants[j].id)].external == Lookup(reply.variants, variants[j].id)
    {
      var x := Part(p, variants[j].id);
      assert x != v ==> VariantRow(u, x) == VariantRow(seen, x);
    }
  }

  lemma NoProgressIsProgress(row: Option<VariantMapping>, parent: Bytes, external: Bytes, store: Option<StoreId>)
    ensures VariantProgress(row, row, parent, external, store)
  {
  }

  lemma StillAddressed(call: Call, t: Tables, u: Tables)
    requires Addressed(call, t) && SameRows(call.product, t, u)
    ensures Addressed(call, u)
  {
    if call.SetVariantInventory? {
      var v := Part(call.product, call.variant);
      assert VariantRow(t, v) == VariantRow(u, v);
    }
  }

  /**
   * A variant's row keeps the parent it was created under, also when the product has
   * moved to another external id since. So after a successful sync the row names the
   * parent that its inventory call addressed exactly when it did so before, or is new.
   */
  lemma ParentIsCurrentIff(p: Bytes, d: Desired, before: Tables, after: Tables, reply: UpsertReply,
      variantsReply: VariantsReply,
                           store: Option<StoreId>, i: nat)
    requires VariantsMoved(p, d, before, after, reply, variantsReply, store)
    requires VariantsSettled(p, d, before, after, reply, variantsReply) && i < |d.variants|
    ensures var v := Part(p, d.variants[i].id);
      && v in after.variants
      && (after.variants[v].parent == reply.external <==>
            v !in before.variants || before.variants[v].parent == reply.external)
  {
    var v := Part(p, d.variants[i].id);
    if VariantRow(before, v) != VariantRow(after, v) {
      assert VariantProgress(VariantRow(before, v), VariantRow(after, v), reply.external,
        Lookup(variantsReply.variants, v.id), store);
    }
  }

  const OLD: Bytes := [1]
  const NEW: Bytes := [2]
  const CHILD: Bytes := [3]

  /**
   * A product moves to a new parent with its variation unchanged: the one write such
   * a sync makes leaves the tables as a successful sync leaves them, and the row
   * still names the old parent.
   */
  lemma ParentCanBeStale(d: Desired, v: Variant)
    requires d.variants == [v]
    ensures var before :=
      Tables(map[OLD := Mapping(OLD, None)], map[], map[Part(OLD, v.id) := VariantMapping(OLD, CHILD, None)]);
      var after := before.(products := map[OLD := Mapping(NEW, None)]);
      var reply, variantsReply := UpsertReply(NEW, map[], true), VariantsReply(map[v.id := CHILD], map[]);
      && TablesOk(before) && Apply(before, UpdateProduct(OLD, OLD, NEW)) == Written(after, None)
      && ProductProgress(ProductRow(before, OLD), ProductRow(after, OLD), reply, None)
      && Identified(OLD, ProductRow(before, OLD), after, reply)
      && VariantsMoved(OLD, d, before, after, reply, variantsReply, None)
      && VariantsSettled(OLD, d, before, after, reply, variantsReply)
      && after.variants[Part(OLD, v.id)].parent != reply.external
  {
    var before := Tables(map[OLD := Mapping(OLD, None)], map[],
      map[Part(OLD, v.id) := VariantMapping(OLD, CHILD, None)]);
    var variantsReply := VariantsReply(map[v.id := CHILD], map[]);
    assert ExistingVariants(before, OLD) == map[v.id := CHILD] by {
      assert Part(OLD, v.id) in before.variants;
      assert v.id in ExistingVariants(before, OLD);
    }
    assert IsVariantOf(d.variants, v.id) by { assert d.variants[0].id == v.id; }
    assert VariantFits(v.id, ExistingVariants(before, OLD), NEW, variantsReply);
  }
}
