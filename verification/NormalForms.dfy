/**
 * The comparison forms of catalog snapshots (internal/catalog/fingerprint.go and
 * internal/catalog/variants.go): what two snapshots must share to count as the same.
 * Texts are sequences of code points.
 */
module NormalForms {
  import opened Sorting
  import opened Text
  import opened Wrappers

  // ---- Trimming ----

  /** White space in the sense of Go's unicode.IsSpace. */
  predicate IsSpace(c: char) {
    var n := c as int;
    9 <= n <= 13 || n == 0x20 || n == 0x85 || n == 0xA0 || n == 0x1680 || 0x2000 <= n <= 0x200A
    || n == 0x2028 || n == 0x2029 || n == 0x202F || n == 0x205F || n == 0x3000
  }

  const SPACES: seq<int> :=
    [9, 10, 11, 12, 13, 0x20, 0x85, 0xA0, 0x1680, 0x2000, 0x2001, 0x2002, 0x2003, 0x2004, 0x2005,
    0x2006, 0x2007, 0x2008, 0x2009, 0x200A, 0x2028, 0x2029, 0x202F, 0x205F, 0x3000]

  /** The white space of Unicode, one by one. */
  lemma SpacesAre(c: char)
    ensures IsSpace(c) <==> c as int in SPACES
  {
  }

  predicate AllSpace(s: string) {
    forall i | 0 <= i < |s| :: IsSpace(s[i])
  }

  predicate IsTrimmed(s: string) {
    s != "" ==> !IsSpace(s[0]) && !IsSpace(s[|s| - 1])
  }

  function TrimLeft(s: string): string {
    if s != "" && IsSpace(s[0]) then TrimLeft(s[1..]) else s
  }

  function TrimRight(s: string): string {
    if s != "" && IsSpace(s[|s| - 1]) then TrimRight(s[..|s| - 1]) else s
  }

  function TrimSpace(s: string): string {
    TrimRight(TrimLeft(s))
  }

  lemma {:induction false} TrimLeftDrops(left: string, t: string)
    requires AllSpace(left)
    ensures TrimLeft(left + t) == TrimLeft(t)
  {
    if left == "" {
      assert left + t == t;
    } else {
      TrimLeftDrops(left[1..], t);
      assert (left + t)[1..] == left[1..] + t;
    }
  }

  lemma {:induction false} TrimRightDrops(t: string, right: string)
    requires AllSpace(right)
    ensures TrimRight(t + right) == TrimRight(t)
    decreases |right|
  {
    if right == "" {
      assert t + right == t;
    } else {
      var k := |right| - 1;
      TrimRightDrops(t, right[..k]);
      assert (t + right)[..|t + right| - 1] == t + right[..k];
    }
  }

  lemma {:induction false} TrimLeftSplits(s: string) returns (left: string)
    ensures AllSpace(left) && s == left + TrimLeft(s) && (TrimLeft(s) != "" ==> !IsSpace(TrimLeft(s)[0]))
  {
    left := "";
    if s != "" && IsSpace(s[0]) {
      var more := TrimLeftSplits(s[1..]);
      left := [s[0]] + more;
      assert s == [s[0]] + s[1..];
    }
  }

  lemma {:induction false} TrimRightSplits(s: string) returns (right: string)
    ensures AllSpace(right) && s == TrimRight(s) + right
      && (TrimRight(s) != "" ==> !IsSpace(TrimRight(s)[|TrimRight(s)| - 1]))
    decreases |s|
  {
    right := "";
    if s != "" && IsSpace(s[|s| - 1]) {
      var k := |s| - 1;
      var more := TrimRightSplits(s[..k]);
      right := more + [s[k]];
      assert s == s[..k] + [s[k]];
    }
  }

  /** Trimming yields the one text without outer space that is left when outer space is removed. */
  lemma TrimIsMiddle(s: string, t: string)
    ensures t == TrimSpace(s) <==> IsTrimmed(t) && exists left, right ::
      AllSpace(left) && AllSpace(right) && s == left + t + right
  {
    hide IsSpace, TrimLeft, TrimRight;
    var left := TrimLeftSplits(s);
    var right := TrimRightSplits(TrimLeft(s));
    var middle := TrimSpace(s);
    assert s == left + middle + right;
    if middle != "" {
      assert TrimLeft(s)[0] == middle[0];
    }
    if IsTrimmed(t) && exists l, r :: AllSpace(l) && AllSpace(r) && s == l + t + r {
      var l, r :| AllSpace(l) && AllSpace(r) && s == l + t + r;
      TrimOfSurrounded(l, t, r);
    }
  }

  lemma TrimOfSurrounded(l: string, t: string, r: string)
    requires AllSpace(l) && AllSpace(r) && IsTrimmed(t)
    ensures TrimSpace(l + t + r) == t
  {
    assert l + t + r == l + (t + r);
    TrimLeftDrops(l, t + r);
    if t == "" {
      assert t + r == r && r + "" == r && "" + r == r;
      TrimLeftDrops(r, "");
    } else {
      assert (t + r)[0] == t[0];
      TrimRightDrops(t, r);
    }
  }

  // ---- Products ----

  datatype Translation = Translation(locale: string, name: string, description: Option<string>)

  datatype Price = Price(currency: string, priceCents: int64, costCents: Option<int64>)

  datatype ProductSnapshot = ProductSnapshot(
    productId: string, sku: string, productTypeId: string, name: string, description: Option<string>,
    translations: seq<Translation>, prices: seq<Price>, topCategoryId: string, subcategoryIds: seq<string>,
    tagIds: seq<string>,
    widthCm: Option<int64>, heightCm: Option<int64>, isActive: bool, catalogRevision: int64)

  datatype NormalizedProduct = NormalizedProduct(
    productId: string, productTypeId: string, name: string, description: Option<string>,
    translations: seq<Translation>, prices: seq<Price>, topCategoryId: string, subcategoryIds: seq<string>,
    tagIds: seq<string>,
    widthCm: Option<int64>, heightCm: Option<int64>, isActive: bool, revision: int64)

  /** Blank and absent are the same. */
  function NormDescription(d: Option<string>): Option<string> {
    if d.None? || TrimSpace(d.value) == "" then None else Some(TrimSpace(d.value))
  }

  /**
   * A description counts as absent when it is absent or all white space, and
   * otherwise as what is left of it when the space around it is taken away.
   */
  lemma NormalDescriptionIs(d: Option<string>, e: Option<string>)
    ensures e == NormDescription(d) <==>
      match e
      case None => d == None || AllSpace(d.value)
      case Some(t) =>
        && t != "" && !IsSpace(t[0]) && !IsSpace(t[|t| - 1])
        && exists left, right :: AllSpace(left) && AllSpace(right) && d == Some(left + t + right)
  {
    hide IsSpace, TrimSpace;
    if d.Some? {
      TrimIsMiddle(d.value, TrimSpace(d.value));
      TrimIsMiddle(d.value, "");
      if TrimSpace(d.value) == "" {
        var l, r :| AllSpace(l) && AllSpace(r) && d.value == l + "" + r;
        assert AllSpace(d.value);
      }
      if AllSpace(d.value) {
        assert AllSpace("") && d.value == d.value + "" + "";
      }
      if e.Some? {
        TrimIsMiddle(d.value, e.value);
      }
    }
  }

  function NormTranslation(t: Translation): Translation {
    t.(description := NormDescription(t.description))
  }

  function NormTranslations(s: seq<Translation>): (r: seq<Translation>)
    ensures |r| == |s| && forall i | 0 <= i < |s| :: r[i] == NormTranslation(s[i])
  {
    seq(|s|, i requires 0 <= i < |s| => NormTranslation(s[i]))
  }

  predicate LocaleLess(a: Translation, b: Translation) {
    TextLess(a.locale, b.locale)
  }

  predicate CurrencyLess(a: Price, b: Price) {
    TextLess(a.currency, b.currency)
  }

  /** What the loops and sorts below compute. */
  function NormalFormOf(v: ProductSnapshot): NormalizedProduct {
    NormalizedProduct(v.productId, v.productTypeId, v.name, NormDescription(v.description),
                      Sort(LocaleLess, NormTranslations(v.translations)), Sort(CurrencyLess, v.prices),
                      v.topCategoryId, v.subcategoryIds, Sort(TextLess, v.tagIds),
                      v.widthCm, v.heightCm, v.isActive, v.catalogRevision)
  }

  method NormalizeProductSnapshot(v: ProductSnapshot) returns (n: NormalizedProduct)
    ensures n == NormalFormOf(v)
  {
    var translations: seq<Translation> := [];
    for i := 0 to |v.translations|
      invariant translations == NormTranslations(v.translations)[..i]
    {
      var t := v.translations[i];
      translations := translations + [Translation(t.locale, t.name, NormDescription(t.description))];
    }
    assert translations == NormTranslations(v.translations);
    n := NormalizedProduct(v.productId, v.productTypeId, v.name, NormDescription(v.description),
                           Sort(LocaleLess, translations), Sort(CurrencyLess, v.prices),
                           v.topCategoryId, v.subcategoryIds, Sort(TextLess, v.tagIds),
                           v.widthCm, v.heightCm, v.isActive, v.catalogRevision);
  }

  /**
   * No locale comes with two different translations and no currency with two
   * different prices. Repeating an entry is harmless.
   */
  predicate NoClashes(v: ProductSnapshot) {
    && (forall i, j | 0 <= i < |v.translations| && 0 <= j < |v.translations|
          && v.translations[i].locale == v.translations[j].locale ::
          NormTranslation(v.translations[i]) == NormTranslation(v.translations[j]))
    && (forall i, j | 0 <= i < |v.prices| && 0 <= j < |v.prices| && v.prices[i].currency == v.prices[j].currency ::
          v.prices[i] == v.prices[j])
  }

  /** The same product: order of tags, translations and prices, outer space of descriptions and the SKU set aside. */
  predicate SameProduct(v: ProductSnapshot, w: ProductSnapshot) {
    && v.productId == w.productId && v.productTypeId == w.productTypeId && v.name == w.name
    && NormDescription(v.description) == NormDescription(w.description)
    && multiset(NormTranslations(v.translations)) == multiset(NormTranslations(w.translations))
    && multiset(v.prices) == multiset(w.prices) && multiset(v.tagIds) == multiset(w.tagIds)
    && v.topCategoryId == w.topCategoryId && v.subcategoryIds == w.subcategoryIds
    && v.widthCm == w.widthCm && v.heightCm == w.heightCm && v.isActive == w.isActive
    && v.catalogRevision == w.catalogRevision
  }

  lemma ClashesAreTies(v: ProductSnapshot)
    ensures WeakOrder(LocaleLess) && WeakOrder(CurrencyLess) && WeakOrder(TextLess) && NoTies(TextLess, v.tagIds)
    ensures NoClashes(v) <==> NoTies(LocaleLess, NormTranslations(v.translations)) && NoTies(CurrencyLess, v.prices)
  {
    hide NormDescription;
    TextLessIsWeakOrder();
    forall s ensures !TextLess(s, s) { TextLessIrreflexive(s); }
    hide TextLess;
    var n := NormTranslations(v.translations);
    if NoTies(LocaleLess, n) {
      forall i, j | 0 <= i < |n| && 0 <= j < |n| && v.translations[i].locale == v.translations[j].locale
        ensures n[i] == n[j] {
        assert n[i].locale == n[j].locale;
      }
    }
  }

  /** Without clashes, two product snapshots have the same comparison form exactly when they are the same product. */
  lemma SameProductIff(v: ProductSnapshot, w: ProductSnapshot)
    requires NoClashes(v)
    ensures NormalFormOf(v) == NormalFormOf(w) <==> SameProduct(v, w)
  {
    hide TextLess, NormDescription, NoClashes, WeakOrder, NoTies, Sort;
    ClashesAreTies(v);
    SortIdentifies(LocaleLess, NormTranslations(v.translations), NormTranslations(w.translations));
    SortIdentifies(CurrencyLess, v.prices, w.prices);
    SortIdentifies(TextLess, v.tagIds, w.tagIds);
  }

  lemma NormTranslationsIdempotent(s: seq<Translation>, t: seq<Translation>)
    requires multiset(t) == multiset(NormTranslations(s))
    ensures NormTranslations(t) == t
  {
    forall i | 0 <= i < |t| ensures NormTranslation(t[i]) == t[i] {
      assert t[i] in multiset(NormTranslations(s));
      var j :| 0 <= j < |s| && NormTranslation(s[j]) == t[i];
      NormDescriptionIdempotent(s[j].description);
    }
  }

  lemma NormDescriptionIdempotent(d: Option<string>)
    ensures NormDescription(NormDescription(d)) == NormDescription(d)
  {
    if d.Some? {
      var t := TrimSpace(d.value);
      TrimIsMiddle(d.value, t);
      TrimOfSurrounded("", t, "");
      assert "" + t + "" == t;
    }
  }

  /** A clash always shows: some reordering of the same product has another comparison form. */
  lemma ClashShows(v: ProductSnapshot) returns (w: ProductSnapshot)
    requires !NoClashes(v)
    ensures SameProduct(v, w) && NormalFormOf(v) != NormalFormOf(w)
  {
    hide TextLess, NormDescription, NoClashes, WeakOrder, NoTies, Sort;
    ClashesAreTies(v);
    if !NoTies(CurrencyLess, v.prices) {
      var prices := TiesShow(CurrencyLess, v.prices);
      w := v.(prices := prices);
    } else {
      var translations := TiesShow(LocaleLess, NormTranslations(v.translations));
      NormTranslationsIdempotent(v.translations, translations);
      w := v.(translations := translations);
    }
  }

  /** The comparison form of a snapshot identifies its product if and only if the snapshot has no clashes. */
  lemma FormIdentifiesIff(v: ProductSnapshot)
    ensures (forall w :: NormalFormOf(v) == NormalFormOf(w) <==> SameProduct(v, w)) <==> NoClashes(v)
  {
    hide NormalFormOf, SameProduct, NoClashes;
    if NoClashes(v) {
      forall w ensures NormalFormOf(v) == NormalFormOf(w) <==> SameProduct(v, w) {
        SameProductIff(v, w);
      }
    } else {
      var w := ClashShows(v);
    }
  }

  /** The SKU, outer space of the description, and the order of tags never matter. */
  lemma NoiseIsIgnored(v: ProductSnapshot, sku: string, left: string, right: string, tags: seq<string>)
    requires v.description.Some? && AllSpace(left) && AllSpace(right) && multiset(tags) == multiset(v.tagIds)
    ensures NormalFormOf(v.(sku := sku, description := Some(left + v.description.value + right), tagIds := tags)) ==
      NormalFormOf(v)
  {
    var d := v.description.value;
    TrimIgnoresSurroundings(left, d, right);
    TextLessIsWeakOrder();
    hide TextLess, TrimSpace;
    SortIdentifies(TextLess, v.tagIds, tags);
  }

  lemma TrimIgnoresSurroundings(left: string, d: string, right: string)
    requires AllSpace(left) && AllSpace(right)
    ensures TrimSpace(left + d + right) == TrimSpace(d)
  {
    hide TrimLeft, TrimRight, TrimSpace, IsSpace;
    var t := TrimSpace(d);
    TrimIsMiddle(d, t);
    var l, r :| AllSpace(l) && AllSpace(r) && d == l + t + r;
    assert left + d + right == (left + l) + t + (r + right);
    TrimOfSurrounded(left + l, t, r + right);
  }

  lemma NormTranslationsSplit(left: seq<Translation>, t: Translation, right: seq<Translation>)
    ensures multiset(NormTranslations(left + [t] + right)) == multiset(NormTranslations(left + right))
      + multiset{NormTranslation(t)}
  {
    hide NormTranslation;
    assert NormTranslations(left + right) == NormTranslations(left) + NormTranslations(right);
    assert NormTranslations(left + [t] + right) == NormTranslations(left) + [NormTranslation(t)]
      + NormTranslations(right);
  }

  lemma {:induction false} ReorderedTranslations(s: seq<Translation>, t: seq<Translation>)
    requires multiset(s) == multiset(t)
    ensures multiset(NormTranslations(s)) == multiset(NormTranslations(t))
    decreases |s|
  {
    hide NormTranslation, NormTranslations;
    if s == [] {
      assert |multiset(t)| == |t|;
    } else {
      var left, right := FindFirst(s, t);
      NormTranslationsSplit(left, s[0], right);
      NormTranslationsSplit([], s[0], s[1..]);
      ReorderedTranslations(s[1..], left + right);
      assert s == [] + [s[0]] + s[1..] && s[1..] == [] + s[1..];
    }
  }

  /** When all four lists of a product are reordered, only the order of its subcategories shows. */
  lemma OnlySubcategoryOrderShows(
    v: ProductSnapshot, translations: seq<Translation>, prices: seq<Price>, subcategories: seq<string>,
      tags: seq<string>)
    requires NoClashes(v)
    requires multiset(translations) == multiset(v.translations) && multiset(prices) == multiset(v.prices)
    requires multiset(subcategories) == multiset(v.subcategoryIds) && multiset(tags) == multiset(v.tagIds)
    ensures var w := v.(translations := translations, prices := prices, subcategoryIds := subcategories,
      tagIds := tags);
      NormalFormOf(v) == NormalFormOf(w) <==> subcategories == v.subcategoryIds
  {
    hide NormDescription, NoClashes, NormalFormOf;
    ReorderedTranslations(v.translations, translations);
    SameProductIff(v, v.(translations := translations, prices := prices, subcategoryIds := subcategories,
      tagIds := tags));
  }

  const TWICE := [Translation("en", "a", None), Translation("en", "b", None)]
  const SWAPPED := [Translation("en", "b", None), Translation("en", "a", None)]

  /** With one locale twice, the same translations in another order are told apart. */
  lemma RepeatedLocaleIsTold(v: ProductSnapshot)
    ensures multiset(TWICE) == multiset(SWAPPED)
    ensures NormalFormOf(v.(translations := TWICE)) != NormalFormOf(v.(translations := SWAPPED))
  {
    assert TWICE[1..] == [TWICE[1]] && SWAPPED[1..] == [SWAPPED[1]] && TWICE[1..][1..] == [] && SWAPPED[1..][1..] == [];
    TextLessIrreflexive("en");
    assert NormTranslations(TWICE) == TWICE && NormTranslations(SWAPPED) == SWAPPED;
    assert Sort(LocaleLess, [TWICE[1]]) == [TWICE[1]] && Sort(LocaleLess, [SWAPPED[1]]) == [SWAPPED[1]];
    assert Sort(LocaleLess, TWICE) == TWICE && Sort(LocaleLess, SWAPPED) == SWAPPED;
    assert TWICE[0].name != SWAPPED[0].name;
    assert multiset(TWICE) == multiset{TWICE[0], TWICE[1]} == multiset(SWAPPED);
  }

  // ---- Variants ----

  const MAX_ATTRIBUTES := 32
  const MAX_CODE := 64
  const MAX_LABEL := 200

  datatype Attribute = Attribute(
    definitionCode: string, valueCode: string, nameAR: string, nameEN: Option<string>,
    definitionNameAR: string, definitionNameEN: Option<string>, position: int)

  datatype VariantSnapshot = VariantSnapshot(
    variantId: string, productId: string, sku: string, isActive: bool, deleted: bool,
    priceEGPCents: Option<int64>, priceUSDCents: Option<int64>, stockQuantity: int, inventoryRevision: int64,
    variantRevision: int64, position: int, combinationKey: string, attributes: seq<Attribute>, catalogRevision: int64)

  datatype NormalizedVariant = NormalizedVariant(
    variantId: string, productId: string, sku: string, isActive: bool, deleted: bool,
    priceEGPCents: Option<int64>, priceUSDCents: Option<int64>, position: int, combinationKey: string,
    attributes: seq<Attribute>, revision: int64)

  function Utf8Size(c: char): nat {
    var n := c as int;
    if n < 0x80 then 1 else if n < 0x800 then 2 else if n < 0x1_0000 then 3 else 4
  }

  /** The length in bytes of the UTF-8 encoding. */
  function Utf8Length(s: string): nat {
    if s == "" then 0 else Utf8Length(s[..|s| - 1]) + Utf8Size(s[|s| - 1])
  }

  predicate ValidCode(code: string) {
    code != "" && Utf8Length(code) <= MAX_CODE && '\r' !in code && '\n' !in code && '\t' !in code
  }

  predicate ValidName(name: string) {
    0 < |TrimSpace(name)| <= MAX_LABEL
  }

  predicate ValidAttribute(a: Attribute) {
    && ValidCode(a.definitionCode) && ValidCode(a.valueCode) && ValidName(a.nameAR) && ValidName(a.definitionNameAR)
    && (a.nameEN.Some? ==> |a.nameEN.value| <= MAX_LABEL)
    && (a.definitionNameEN.Some? ==> |a.definitionNameEN.value| <= MAX_LABEL)
    && a.position >= 0
  }

  /** The bounds of an attribute. */
  lemma ValidAttributesAre(a: Attribute)
    ensures ValidAttribute(a) <==>
      && 1 <= |a.definitionCode| && Utf8Length(a.definitionCode) <= 64
      && (forall c | c in a.definitionCode :: c != '\r' && c != '\n' && c != '\t')
      && 1 <= |a.valueCode| && Utf8Length(a.valueCode) <= 64
      && (forall c | c in a.valueCode :: c != '\r' && c != '\n' && c != '\t')
      && 1 <= |TrimSpace(a.nameAR)| <= 200 && 1 <= |TrimSpace(a.definitionNameAR)| <= 200
      && (a.nameEN == None || |a.nameEN.value| <= 200)
      && (a.definitionNameEN == None || |a.definitionNameEN.value| <= 200) && 0 <= a.position
  {
  }

  predicate DistinctCodes(s: seq<Attribute>) {
    forall i, j | 0 <= i < j < |s| :: s[i].definitionCode != s[j].definitionCode
  }

  /** The attribute checks of the variant validator. */
  method ValidateAttributes(attributes: seq<Attribute>) returns (ok: bool)
    ensures ok <==>
      |attributes| <= MAX_ATTRIBUTES && (forall i | 0 <= i < |attributes| :: ValidAttribute(attributes[i]))
        && DistinctCodes(attributes)
  {
    hide ValidAttribute;
    if |attributes| > MAX_ATTRIBUTES {
      return false;
    }
    var seen: set<string> := {};
    for i := 0 to |attributes|
      invariant seen == set j | 0 <= j < i :: attributes[j].definitionCode
      invariant forall j | 0 <= j < i :: ValidAttribute(attributes[j])
      invariant DistinctCodes(attributes[..i])
    {
      var a := attributes[i];
      if !ValidAttribute(a) || a.definitionCode in seen {
        return false;
      }
      seen := seen + {a.definitionCode};
    }
    assert attributes[..|attributes|] == attributes;
    return true;
  }

  /** By position, then by code. */
  predicate AttributeLess(a: Attribute, b: Attribute) {
    if a.position != b.position then a.position < b.position else TextLess(a.definitionCode, b.definitionCode)
  }

  function NormalizeProductVariantSnapshot(v: VariantSnapshot): NormalizedVariant {
    NormalizedVariant(v.variantId, v.productId, v.sku, v.isActive, v.deleted, v.priceEGPCents, v.priceUSDCents,
                      v.position, v.combinationKey, Sort(AttributeLess, v.attributes), v.variantRevision)
  }

  /**
   * The form lists translations by locale, prices by currency, tags by text and
   * attributes by position and then by code, and nothing in it is lost or added.
   */
  lemma FormsAreOrdered(v: ProductSnapshot, w: VariantSnapshot)
    ensures var n, a := NormalFormOf(v), NormalizeProductVariantSnapshot(w).attributes;
      && (forall i, j | 0 <= i < j < |n.translations| :: !TextLess(n.translations[j].locale, n.translations[i].locale))
      && (forall i, j | 0 <= i < j < |n.prices| :: !TextLess(n.prices[j].currency, n.prices[i].currency))
      && (forall i, j | 0 <= i < j < |n.tagIds| :: !TextLess(n.tagIds[j], n.tagIds[i]))
      && (forall i, j | 0 <= i < j < |a| :: a[i].position <= a[j].position)
      && (forall i, j | 0 <= i < j < |a| && a[i].position == a[j].position ::
            !TextLess(a[j].definitionCode, a[i].definitionCode))
    ensures var n := NormalFormOf(v);
      && |n.translations| == |v.translations| && multiset(n.prices) == multiset(v.prices)
      && multiset(n.tagIds) == multiset(v.tagIds)
      && multiset(NormalizeProductVariantSnapshot(w).attributes) == multiset(w.attributes)
  {
    TextLessIsWeakOrder();
    hide TextLess, NormDescription;
    assert WeakOrder(LocaleLess) && WeakOrder(CurrencyLess) && WeakOrder(AttributeLess);
    SortSorts(LocaleLess, NormTranslations(v.translations));
    SortSorts(CurrencyLess, v.prices);
    SortSorts(TextLess, v.tagIds);
    SortSorts(AttributeLess, w.attributes);
    hide Sort;
    var a := NormalizeProductVariantSnapshot(w).attributes;
    forall i, j | 0 <= i < j < |a| ensures !AttributeLess(a[j], a[i]) {
    }
    assert |multiset(NormalFormOf(v).translations)| == |multiset(NormTranslations(v.translations))|;
  }

  /** The same variant: order of attributes and the mirrored stock and catalog fields set aside. */
  predicate SameVariant(v: VariantSnapshot, w: VariantSnapshot) {
    && v.variantId == w.variantId && v.productId == w.productId && v.sku == w.sku && v.isActive == w.isActive
    && v.deleted == w.deleted
    && v.priceEGPCents == w.priceEGPCents && v.priceUSDCents == w.priceUSDCents && v.position == w.position
    && v.combinationKey == w.combinationKey && v.variantRevision == w.variantRevision
    && multiset(v.attributes) == multiset(w.attributes)
  }

  /** Codes that differ, which the validator demands, are all it takes to tell variants apart exactly. */
  lemma SameVariantIff(v: VariantSnapshot, w: VariantSnapshot)
    requires DistinctCodes(v.attributes)
    ensures NormalizeProductVariantSnapshot(v) == NormalizeProductVariantSnapshot(w) <==> SameVariant(v, w)
  {
    hide TextLess;
    TextLessIsWeakOrder();
    assert WeakOrder(AttributeLess);
    assert NoTies(AttributeLess, v.attributes);
    SortIdentifies(AttributeLess, v.attributes, w.attributes);
  }
}
