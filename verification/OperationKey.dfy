/**
 * Retry keys for provider calls (internal/commerce/operations.go). A key is the
 * SHA-256 of a byte string made of length-prefixed fields; the hash is left
 * uninterpreted, and what is proved is that the hashed bytes give back the kind of
 * key and every argument.
 */
module OperationKey {
  import opened Wrappers

  newtype byte = x: int | 0 <= x < 256
  type Bytes = seq<byte>

  const TWO_TO_THE_64: int := 0x1_0000_0000_0000_0000
  const MAX_FIELD: nat := 0xFFFF_FFFF

  datatype Key =
    | ProductKey(provider: Bytes, product: Bytes, catalogRevision: int64, policyRevision: int64, published: bool,
        categoryFingerprint: Bytes, categoryVersion: Bytes, configurationsFingerprint: Bytes,
        configurationsVersion: Bytes)
    | InventoryKey(provider: Bytes, product: Bytes, catalogRevision: int64, policyRevision: int64,
      inventoryRevision: int64,
        quantity: int64, published: bool,
        categoryFingerprint: Bytes, categoryVersion: Bytes, configurationsFingerprint: Bytes,
        configurationsVersion: Bytes)
    | VariantsKey(provider: Bytes, product: Bytes, catalogRevision: int64, policyRevision: int64, published: bool,
        variantsFingerprint: Bytes, variantsVersion: Bytes)
    | VariantInventoryKey(provider: Bytes, product: Bytes, variant: Bytes, catalogRevision: int64,
      policyRevision: int64,
        inventoryRevision: int64, quantity: int64, ready: bool, published: bool,
        variantsFingerprint: Bytes, variantsVersion: Bytes)

  // ---- Fields ----

  /** The low 8 * n bits of v, most significant byte first. */
  function BigEndian(v: nat, n: nat): (r: Bytes)
    ensures |r| == n
  {
    if n == 0 then [] else BigEndian(v / 256, n - 1) + [(v % 256) as byte]
  }

  lemma {:induction false} BigEndianInjective(v: nat, w: nat, n: nat)
    requires v < Power256(n) && w < Power256(n) && BigEndian(v, n) == BigEndian(w, n)
    ensures v == w
  {
    if n > 0 {
      var a, b := BigEndian(v, n), BigEndian(w, n);
      assert a[n - 1] == b[n - 1] && a[..n - 1] == b[..n - 1];
      BigEndianInjective(v / 256, w / 256, n - 1);
    }
  }

  function Power256(n: nat): nat {
    if n == 0 then 1 else 256 * Power256(n - 1)
  }

  lemma EightBytes()
    ensures Power256(8) == TWO_TO_THE_64
  {
    assert Power256(4) == 0x1_0000_0000;
  }

  /** A revision as its two's-complement bit pattern. */
  function RevisionBytes(revision: int64): (r: Bytes)
    ensures |r| == 8
  {
    BigEndian((if revision < 0 then revision as int + TWO_TO_THE_64 else revision as int) as nat, 8)
  }

  lemma RevisionBytesInjective(v: int64, w: int64)
    requires RevisionBytes(v) == RevisionBytes(w)
    ensures v == w
  {
    EightBytes();
    var a := if v < 0 then v as int + TWO_TO_THE_64 else v as int;
    var b := if w < 0 then w as int + TWO_TO_THE_64 else w as int;
    BigEndianInjective(a, b, 8);
  }

  function BoolBytes(value: bool): Bytes {
    if value then [1] else [0]
  }

  // ---- The hashed byte string ----

  /** The bytes of text, all of which is ASCII here. */
  const PRODUCT: Bytes := [112, 114, 111, 100, 117, 99, 116]
  const INVENTORY: Bytes := [105, 110, 118, 101, 110, 116, 111, 114, 121]
  const PRODUCT_VARIANTS: Bytes := PRODUCT + [45, 118, 97, 114, 105, 97, 110, 116, 115]
  const VARIANT_INVENTORY: Bytes := [118, 97, 114, 105, 97, 110, 116, 45] + INVENTORY

  /** The names of the four kinds of keys. */
  lemma NamesAre()
    ensures |PRODUCT| == |"product"| && forall i | 0 <= i < |PRODUCT| :: PRODUCT[i] as int == "product"[i] as int
    ensures |INVENTORY| == |"inventory"| && forall i | 0 <= i < |INVENTORY| ::
      INVENTORY[i] as int == "inventory"[i] as int
    ensures |PRODUCT_VARIANTS| == |"product-variants"| && forall i | 0 <= i < |PRODUCT_VARIANTS| ::
      PRODUCT_VARIANTS[i] as int == "product-variants"[i] as int
    ensures |VARIANT_INVENTORY| == |"variant-inventory"| && forall i | 0 <= i < |VARIANT_INVENTORY| ::
      VARIANT_INVENTORY[i] as int == "variant-inventory"[i] as int
  {
  }

  /** Flags and revisions as they are written. */
  lemma BytesAre()
    ensures BoolBytes(true) == [1] && BoolBytes(false) == [0]
    ensures RevisionBytes(0x0102_0304_0506_0708) == [1, 2, 3, 4, 5, 6, 7, 8]
    ensures RevisionBytes(-1) == [255, 255, 255, 255, 255, 255, 255, 255]
  {
    LowBytes(0x0102_0304_0506_0708);
    LowBytes(0x0102_0304_0506);
    LowBytes(0x0102_0304);
    LowBytes(0x0102);
    LowBytes(0xFFFF_FFFF_FFFF_FFFF);
    LowBytes(0xFFFF_FFFF_FFFF);
    LowBytes(0xFFFF_FFFF);
    LowBytes(0xFFFF);
    hide BigEndian;
  }

  /** The last two bytes of a number. */
  lemma LowBytes(v: nat)
    ensures BigEndian(v, 0) == []
    ensures forall n: nat ::
      BigEndian(v, n + 2) == BigEndian(v / 0x1_0000, n) + [(v / 256 % 256) as byte, (v % 256) as byte]
  {
    assert v / 256 / 256 == v / 0x1_0000;
  }

  function Fields(key: Key): seq<Bytes> {
    match key
    case ProductKey(provider, product, catalog, policy, published, fp, version, configurations,
      configurationsVersion) =>
      [PRODUCT, provider, product, RevisionBytes(catalog), RevisionBytes(policy), BoolBytes(published),
       fp, version, configurations, configurationsVersion]
    case InventoryKey(provider, product, catalog, policy, inventory, quantity, published, fp, version, configurations,
      configurationsVersion) =>
      [INVENTORY, provider, product, RevisionBytes(catalog), RevisionBytes(policy), RevisionBytes(inventory),
       RevisionBytes(quantity), BoolBytes(published), fp, version, configurations, configurationsVersion]
    case VariantsKey(provider, product, catalog, policy, published, fp, version) =>
      [PRODUCT_VARIANTS, provider, product, RevisionBytes(catalog), RevisionBytes(policy), BoolBytes(published), fp,
        version]
    case VariantInventoryKey(provider, product, variant, catalog, policy, inventory, quantity, ready, published, fp,
      version) =>
      [VARIANT_INVENTORY, provider, product, variant, RevisionBytes(catalog), RevisionBytes(policy),
        RevisionBytes(inventory),
       RevisionBytes(quantity), BoolBytes(ready), BoolBytes(published), fp, version]
  }

  /** Each field follows its length in eight bytes. */
  function Encode(fields: seq<Bytes>): Bytes {
    if fields == [] then [] else BigEndian(|fields[0]|, 8) + fields[0] + Encode(fields[1..])
  }

  predicate Writable(fields: seq<Bytes>) {
    forall i | 0 <= i < |fields| :: |fields[i]| <= MAX_FIELD
  }

  /** What is hashed; none when a field is so long that writeField panics. */
  method OperationKeyBytes(fields: seq<Bytes>) returns (hashed: Option<Bytes>)
    ensures hashed == if Writable(fields) then Some(Encode(fields)) else None
  {
    hide BigEndian;
    var written: Bytes := [];
    for i := 0 to |fields|
      invariant Writable(fields[..i]) && written + Encode(fields[i..]) == Encode(fields)
    {
      if |fields[i]| > MAX_FIELD {
        return None;
      }
      assert fields[i..][0] == fields[i] && fields[i..][1..] == fields[i + 1..];
      written := written + BigEndian(|fields[i]|, 8) + fields[i];
    }
    assert fields[..|fields|] == fields && written + Encode(fields[|fields|..]) == written;
    return Some(written);
  }

  /** The encoding delimits itself: equal bytes mean equal field lists. */
  lemma {:induction false} EncodeInjective(f: seq<Bytes>, g: seq<Bytes>)
    requires Writable(f) && Writable(g) && Encode(f) == Encode(g)
    ensures f == g
  {
    if f == [] || g == [] {
      assert |Encode(f)| == |Encode(g)|;
    } else {
      var e := Encode(f);
      assert e[..8] == BigEndian(|f[0]|, 8) && e[..8] == BigEndian(|g[0]|, 8);
      EightBytes();
      BigEndianInjective(|f[0]|, |g[0]|, 8);
      var n := 8 + |f[0]|;
      assert e[8..n] == f[0] && e[8..n] == g[0];
      assert e[n..] == Encode(f[1..]) && e[n..] == Encode(g[1..]);
      EncodeInjective(f[1..], g[1..]);
    }
  }

  /** Two keys hash the same bytes exactly when they are the same kind of key for the same arguments. */
  lemma KeysAgreeExactly(a: Key, b: Key)
    requires Writable(Fields(a)) && Writable(Fields(b))
    ensures Encode(Fields(a)) == Encode(Fields(b)) <==> a == b
  {
    hide Encode;
    if Encode(Fields(a)) == Encode(Fields(b)) {
      EncodeInjective(Fields(a), Fields(b));
      var f, g := Fields(a), Fields(b);
      assert |f[0]| == |g[0]| && |f| == |g|;
      forall v: int64, w: int64 ensures RevisionBytes(v) == RevisionBytes(w) ==> v == w {
        if RevisionBytes(v) == RevisionBytes(w) {
          RevisionBytesInjective(v, w);
        }
      }
      hide RevisionBytes;
      assert forall i | 0 <= i < |f| :: f[i] == g[i];
    }
  }
}
