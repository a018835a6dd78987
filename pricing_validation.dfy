/**
 * The comparison rules of the pricing validation script, with the database
 * reads replaced by the rows, counts and name lists they return:
 *
 * - the price maps of the production and UAT collections and the
 *   mismatch maps between them, with the example printed for each;
 * - the document counts over the accounts and their three-way
 *   classification;
 * - the per-range discount comparison and the order-preserving list
 *   differences printed for it, and which products are checked per account;
 * - the `db_list` filter over database ids and the purge name filter.
 *
 * Python dicts keep insertion order, and the example is taken from the
 * first key, so a dict is modelled as an association list with distinct
 * keys, in insertion order.
 */
module PricingValidation {
  import opened Wrappers
  import StringOrder

  // --- rows, keys and insertion-ordered dicts ------------------------------

  /** An ObjectId, by its hex text. */
  type Id = string

  /** The `(aid, pid, frm)` key; `frm` is the start date as a timestamp. */
  datatype PriceKey = PriceKey(aid: Id, pid: Id, frm: int)

  /** A document as projected by the query: its key fields and
      `prc.nsv_norm`, None when `prc` or `nsv_norm` is absent. */
  datatype Row = Row(aid: Id, pid: Id, frm: int, nsvNorm: Option<real>)

  /** Python truthiness of `row.get('prc', {}).get('nsv_norm')`. */
  predicate Truthy(r: Row) {
    r.nsvNorm.Some? && r.nsvNorm.value != 0.0
  }

  function KeyOf(r: Row): PriceKey {
    PriceKey(r.aid, r.pid, r.frm)
  }

  predicate HasKey<V>(d: seq<(PriceKey, V)>, k: PriceKey) {
    exists i | 0 <= i < |d| :: d[i].0 == k
  }

  predicate DistinctKeys<V>(d: seq<(PriceKey, V)>) {
    forall i, j | 0 <= i < j < |d| :: d[i].0 != d[j].0
  }

  /** `d.get(k)`. */
  function Lookup<V>(d: seq<(PriceKey, V)>, k: PriceKey): (r: Option<V>)
    ensures r.Some? <==> HasKey(d, k)
    ensures r.Some? ==> exists i | 0 <= i < |d| :: d[i] == (k, r.value)
  {
    if d == [] then None
    else if d[0].0 == k then Some(d[0].1)
    else
      var r := Lookup(d[1..], k);
      assert forall i | 0 <= i < |d| - 1 :: d[1..][i] == d[i + 1];
      r
  }

  lemma {:induction false} LookupEntry<V>(d: seq<(PriceKey, V)>, i: nat)
    requires DistinctKeys(d) && i < |d|
    ensures Lookup(d, d[i].0) == Some(d[i].1)
  {
    if i > 0 && d[0].0 != d[i].0 {
      LookupEntry(d[1..], i - 1);
    }
  }

  /** `d[k] = v`: a new key goes last, an existing key keeps its place. */
  function Put<V>(d: seq<(PriceKey, V)>, k: PriceKey, v: V): (r: seq<(PriceKey, V)>)
    ensures |r| == if HasKey(d, k) then |d| else |d| + 1
    ensures forall i | 0 <= i < |d| :: r[i].0 == d[i].0
    ensures !HasKey(d, k) ==> r == d + [(k, v)]
  {
    if d == [] then [(k, v)]
    else if d[0].0 == k then [(k, v)] + d[1..]
    else
      var t := d[1..];
      assert HasKey(d, k) <==> HasKey(t, k) by {
        assert forall i | 0 <= i < |t| :: t[i] == d[i + 1];
        if HasKey(d, k) {
          var i :| 0 <= i < |d| && d[i].0 == k;
          assert t[i - 1].0 == k;
        }
      }
      [d[0]] + Put(t, k, v)
  }

  /** After `d[k] = v`, `k` gives `v` and every other key what it gave before. */
  lemma {:induction false} PutLookup<V>(d: seq<(PriceKey, V)>, k: PriceKey, v: V, k': PriceKey)
    ensures Lookup(Put(d, k, v), k') == if k' == k then Some(v) else Lookup(d, k')
  {
    if d != [] && d[0].0 != k {
      PutLookup(d[1..], k, v, k');
    }
  }

  lemma PutDistinct<V>(d: seq<(PriceKey, V)>, k: PriceKey, v: V)
    requires DistinctKeys(d)
    ensures DistinctKeys(Put(d, k, v))
  {
    var r := Put(d, k, v);
    if !HasKey(d, k) {
      forall i | 0 <= i < |d|
        ensures d[i].0 != k
      {
      }
    }
  }

  // --- the price maps and their mismatches --------------------------------

  /** `{(aid, pid, frm): nsv_norm for row in rows if nsv_norm}`. */
  function PriceMap(rows: seq<Row>): (d: seq<(PriceKey, real)>)
    ensures DistinctKeys(d)
  {
    if rows == [] then []
    else
      var d := PriceMap(rows[..|rows| - 1]);
      var r := rows[|rows| - 1];
      if Truthy(r) then PutDistinct(d, KeyOf(r), r.nsvNorm.value); Put(d, KeyOf(r), r.nsvNorm.value) else d
  }

  /** The value the last row with key `k` and a truthy price gives, found
      by reading the rows backwards. */
  function LastPrice(rows: seq<Row>, k: PriceKey): Option<real> {
    if rows == [] then None
    else
      var r := rows[|rows| - 1];
      if Truthy(r) && KeyOf(r) == k then r.nsvNorm else LastPrice(rows[..|rows| - 1], k)
  }

  /** The price map holds exactly the keys of rows with a truthy price, and
      for each the price of the last such row. */
  lemma PriceMapContents(rows: seq<Row>, k: PriceKey)
    ensures Lookup(PriceMap(rows), k) == LastPrice(rows, k)
    ensures HasKey(PriceMap(rows), k) <==> exists i | 0 <= i < |rows| :: Truthy(rows[i]) && KeyOf(rows[i]) == k
  {
    PriceMapLookup(rows, k);
    LastPriceFound(rows, k);
  }

  lemma {:induction false} PriceMapLookup(rows: seq<Row>, k: PriceKey)
    ensures Lookup(PriceMap(rows), k) == LastPrice(rows, k)
  {
    if rows != [] {
      var init, r := rows[..|rows| - 1], rows[|rows| - 1];
      PriceMapLookup(init, k);
      if Truthy(r) {
        PutLookup(PriceMap(init), KeyOf(r), r.nsvNorm.value, k);
      }
    }
  }

  lemma {:induction false} LastPriceFound(rows: seq<Row>, k: PriceKey)
    ensures LastPrice(rows, k).Some? <==> exists i | 0 <= i < |rows| :: Truthy(rows[i]) && KeyOf(rows[i]) == k
  {
    if rows != [] {
      var init := rows[..|rows| - 1];
      LastPriceFound(init, k);
      assert forall i | 0 <= i < |init| :: init[i] == rows[i];
    }
  }

  /** `{k: (v, other.get(k)) for k, v in own.items() if v != other.get(k)}`.
      `v` is a number and `other.get(k)` a number or None, so a key missing
      from `other` always mismatches. */
  function Mismatch(own: seq<(PriceKey, real)>, other: seq<(PriceKey, real)>): (m: seq<(PriceKey, (real, Option<real>))>)
    ensures |m| <= |own|
    ensures forall k | HasKey(m, k) :: HasKey(own, k)
  {
    if own == [] then []
    else
      var (k, v) := own[0];
      var rest := Mismatch(own[1..], other);
      assert forall k | HasKey(own[1..], k) :: HasKey(own, k) by {
        forall k | HasKey(own[1..], k) ensures HasKey(own, k) {
          var i :| 0 <= i < |own[1..]| && own[1..][i].0 == k;
          assert own[i + 1].0 == k;
        }
      }
      if Some(v) != Lookup(other, k) then [(k, (v, Lookup(other, k)))] + rest else rest
  }

  /** A key is in the mismatch map exactly when `own` has it with a value
      `other` does not give back; it maps to both values. */
  lemma {:induction false} MismatchContents(own: seq<(PriceKey, real)>, other: seq<(PriceKey, real)>, k: PriceKey)
    requires DistinctKeys(own)
    ensures DistinctKeys(Mismatch(own, other))
    ensures Lookup(Mismatch(own, other), k) ==
      if Lookup(own, k).Some? && Lookup(own, k) != Lookup(other, k)
      then Some((Lookup(own, k).value, Lookup(other, k))) else None
  {
    if own != [] {
      var tail := own[1..];
      assert forall i | 0 <= i < |tail| :: tail[i] == own[i + 1];
      MismatchContents(tail, other, k);
      MismatchContents(tail, other, own[0].0);
      assert !HasKey(tail, own[0].0);
      var m := Mismatch(tail, other);
      assert !HasKey(m, own[0].0);
    }
  }

  /** A key both maps hold with different values is reported by both
      mismatch maps. */
  lemma MismatchBothWays(a: seq<(PriceKey, real)>, b: seq<(PriceKey, real)>, k: PriceKey)
    requires DistinctKeys(a) && DistinctKeys(b)
    requires HasKey(a, k) && HasKey(b, k) && Lookup(a, k) != Lookup(b, k)
    ensures HasKey(Mismatch(a, b), k) && HasKey(Mismatch(b, a), k)
  {
    MismatchContents(a, b, k);
    MismatchContents(b, a, k);
  }

  /** `a` and `b` are equal as dicts: every key gives the same value, or none. */
  ghost predicate SameLookups(a: seq<(PriceKey, real)>, b: seq<(PriceKey, real)>) {
    forall k :: Lookup(a, k) == Lookup(b, k)
  }

  /** Both mismatch maps are empty exactly when the two maps are equal as dicts. */
  lemma NoMismatchIffSameLookups(a: seq<(PriceKey, real)>, b: seq<(PriceKey, real)>)
    requires DistinctKeys(a) && DistinctKeys(b)
    ensures Mismatch(a, b) == [] && Mismatch(b, a) == [] <==> SameLookups(a, b)
  {
    if Mismatch(a, b) == [] && Mismatch(b, a) == [] {
      forall k
        ensures Lookup(a, k) == Lookup(b, k)
      {
        MismatchContents(a, b, k);
        MismatchContents(b, a, k);
      }
    } else if SameLookups(a, b) {
      EmptyWhenNoKeyMismatches(a, b);
      EmptyWhenNoKeyMismatches(b, a);
    }
  }

  lemma EmptyWhenNoKeyMismatches(own: seq<(PriceKey, real)>, other: seq<(PriceKey, real)>)
    requires DistinctKeys(own)
    requires SameLookups(own, other) || SameLookups(other, own)
    ensures Mismatch(own, other) == []
  {
    var m := Mismatch(own, other);
    if m != [] {
      MismatchContents(own, other, m[0].0);
    }
  }

  /** The example printed for a mismatch map. */
  datatype Example =
    | NoExample
    | Example(aid: Id, pid: Id, frm: int, own: real, other: Option<real>)

  /** `list(k) + list(m[k])` for the first key `k` of `m`, or `''` when `m` is empty. */
  function ExampleOf(m: seq<(PriceKey, (real, Option<real>))>): (e: Example)
    ensures e.NoExample? <==> m == []
  {
    if m == [] then NoExample
    else Example(m[0].0.aid, m[0].0.pid, m[0].0.frm, m[0].1.0, m[0].1.1)
  }

  /** The example is the first entry of `own`, in insertion order, whose
      value `other` does not give back, shown with both values. */
  lemma {:induction false} ExampleIsFirstMismatch(own: seq<(PriceKey, real)>, other: seq<(PriceKey, real)>)
    ensures ExampleOf(Mismatch(own, other)).Example? ==>
      exists i | 0 <= i < |own| ::
        && Some(own[i].1) != Lookup(other, own[i].0)
        && (forall j | 0 <= j < i :: Some(own[j].1) == Lookup(other, own[j].0))
        && ExampleOf(Mismatch(own, other)) ==
           Example(own[i].0.aid, own[i].0.pid, own[i].0.frm, own[i].1, Lookup(other, own[i].0))
  {
    if own != [] && Some(own[0].1) == Lookup(other, own[0].0) {
      var tail := own[1..];
      assert Mismatch(own, other) == Mismatch(tail, other);
      ExampleIsFirstMismatch(tail, other);
      if ExampleOf(Mismatch(tail, other)).Example? {
        var i :| 0 <= i < |tail| && Some(tail[i].1) != Lookup(other, tail[i].0)
          && (forall j | 0 <= j < i :: Some(tail[j].1) == Lookup(other, tail[j].0))
          && ExampleOf(Mismatch(tail, other)) ==
             Example(tail[i].0.aid, tail[i].0.pid, tail[i].0.frm, tail[i].1, Lookup(other, tail[i].0));
        assert own[i + 1] == tail[i];
        assert forall j | 1 <= j < i + 1 :: own[j] == tail[j - 1];
      }
    } else if own != [] {
      assert Mismatch(own, other)[0] == (own[0].0, (own[0].1, Lookup(other, own[0].0)));
    }
  }

  /** What `compare_pricing_data` prints for one database: the sizes of
      the production map `a` and the UAT map `b`, and for each mismatch map
      its size and example. */
  datatype Comparison = Comparison(sizeA: nat, sizeB: nat, mismatchesA: nat, exampleA: Example, mismatchesB: nat, exampleB: Example)

  function Compare(prodRows: seq<Row>, uatRows: seq<Row>): (c: Comparison)
    ensures c.mismatchesA <= c.sizeA && c.mismatchesB <= c.sizeB
    ensures c.exampleA.NoExample? <==> c.mismatchesA == 0
    ensures c.exampleB.NoExample? <==> c.mismatchesB == 0
  {
    var a := PriceMap(prodRows);
    var b := PriceMap(uatRows);
    var mismatchA := Mismatch(a, b);
    var mismatchB := Mismatch(b, a);
    Comparison(|a|, |b|, |mismatchA|, ExampleOf(mismatchA), |mismatchB|, ExampleOf(mismatchB))
  }

  /** Every key has the same last truthy price in both row lists, or none in either. */
  ghost predicate SamePrices(prodRows: seq<Row>, uatRows: seq<Row>) {
    forall k :: LastPrice(prodRows, k) == LastPrice(uatRows, k)
  }

  /** The summary reports no mismatch either way exactly when both
      collections give every key the same last truthy price. */
  lemma CompareReportsAgreement(prodRows: seq<Row>, uatRows: seq<Row>)
    ensures var c := Compare(prodRows, uatRows);
      c.mismatchesA == 0 && c.mismatchesB == 0 <==> SamePrices(prodRows, uatRows)
  {
    var a, b := PriceMap(prodRows), PriceMap(uatRows);
    NoMismatchIffSameLookups(a, b);
    forall k
      ensures Lookup(a, k) == LastPrice(prodRows, k) && Lookup(b, k) == LastPrice(uatRows, k)
    {
      PriceMapContents(prodRows, k);
      PriceMapContents(uatRows, k);
    }
    assert SameLookups(a, b) <==> SamePrices(prodRows, uatRows);
  }

  // --- document counts -----------------------------------------------------

  /** How `check_promotion_internal_price` reacts to the two totals. */
  datatype SizeCheck = NoData | CollectionEmpty | SizesDiffer | SizesAgree

  /** The classification of the totals; only the last two go on to the
      product comparison. */
  function ClassifyCounts(countUat: nat, countProd: nat): (c: SizeCheck)
    ensures c == NoData <==> countUat == 0 && countProd == 0
    ensures c == CollectionEmpty <==> (countUat == 0) != (countProd == 0)
    ensures (c == SizesDiffer || c == SizesAgree) <==> countUat > 0 && countProd > 0
    ensures c == SizesDiffer <==> countUat > 0 && countProd > 0 && countUat != countProd
    ensures c == SizesAgree <==> countUat > 0 && countUat == countProd
  {
    if countUat == 0 && countProd == 0 then NoData
    else if countUat == 0 || countProd == 0 then CollectionEmpty
    else if countUat != countProd then SizesDiffer
    else SizesAgree
  }

  /** The sum of `count` over the accounts. */
  function Sum(aids: seq<Id>, count: Id -> nat): nat {
    if aids == [] then 0 else Sum(aids[..|aids| - 1], count) + count(aids[|aids| - 1])
  }

  lemma {:induction false} SumZero(aids: seq<Id>, count: Id -> nat)
    ensures Sum(aids, count) == 0 <==> forall i | 0 <= i < |aids| :: count(aids[i]) == 0
  {
    if aids != [] {
      var init := aids[..|aids| - 1];
      SumZero(init, count);
      assert forall i | 0 <= i < |init| :: init[i] == aids[i];
    }
  }

  /** Lines 100-112: the accounts used (the filter, or else every account
      of the UAT collection) and the totals over them, or the whole
      collection sizes when there are no accounts. */
  method CountDocuments(aidFilter: seq<Id>, uatAids: seq<Id>, prodCount: Id -> nat, uatCount: Id -> nat, prodSize: nat, uatSize: nat)
    returns (aids: seq<Id>, countProd: nat, countUat: nat)
    ensures aids == if aidFilter != [] then aidFilter else uatAids
    ensures aids != [] ==> countProd == Sum(aids, prodCount) && countUat == Sum(aids, uatCount)
    ensures aids == [] ==> countProd == prodSize && countUat == uatSize
  {
    aids := if aidFilter != [] then aidFilter else uatAids;
    countProd, countUat := 0, 0;
    if aids != [] {
      for i := 0 to |aids|
        invariant countProd == Sum(aids[..i], prodCount) && countUat == Sum(aids[..i], uatCount)
      {
        assert aids[..i + 1][..i] == aids[..i];
        countProd := countProd + prodCount(aids[i]);
        countUat := countUat + uatCount(aids[i]);
      }
      assert aids[..|aids|] == aids;
    } else {
      countProd := prodSize;
      countUat := uatSize;
    }
  }

  /** Over a non-empty account list the check stops with "no data" exactly
      when no account has a document in either collection. */
  lemma NoDataMeansNoDocuments(aids: seq<Id>, prodCount: Id -> nat, uatCount: Id -> nat)
    requires aids != []
    ensures ClassifyCounts(Sum(aids, uatCount), Sum(aids, prodCount)) == NoData <==>
      forall i | 0 <= i < |aids| :: uatCount(aids[i]) == 0 && prodCount(aids[i]) == 0
  {
    SumZero(aids, uatCount);
    SumZero(aids, prodCount);
  }

  // --- discount lists ------------------------------------------------------

  /** `[x for x in xs if x not in ys]`. */
  function ExtraValues(xs: seq<real>, ys: seq<real>): (r: seq<real>)
    ensures forall x :: x in r <==> x in xs && x !in ys
    ensures |r| <= |xs|
  {
    if xs == [] then []
    else (if xs[0] in ys then [] else [xs[0]]) + ExtraValues(xs[1..], ys)
  }

  /** The difference keeps the order of `xs`: it distributes over
      concatenation, so it is `xs` with the shared items dropped in place. */
  lemma {:induction false} ExtraValuesAppend(xs: seq<real>, zs: seq<real>, ys: seq<real>)
    ensures ExtraValues(xs + zs, ys) == ExtraValues(xs, ys) + ExtraValues(zs, ys)
  {
    if xs != [] {
      assert (xs + zs)[1..] == xs[1..] + zs;
      ExtraValuesAppend(xs[1..], zs, ys);
    } else {
      assert xs + zs == zs;
    }
  }

  /** Both differences are empty exactly when the lists hold the same
      items, whatever their order and repetitions; so `disc_prod ==
      disc_uat` can fail while both differences print empty. */
  lemma BothExtrasEmpty(u: seq<real>, p: seq<real>)
    ensures ExtraValues(u, p) == [] && ExtraValues(p, u) == [] <==> forall x :: x in u <==> x in p
  {
    if !(ExtraValues(u, p) == [] && ExtraValues(p, u) == []) {
      if ExtraValues(u, p) != [] {
        var x := ExtraValues(u, p)[0];
        assert x in ExtraValues(u, p);
      } else {
        var x := ExtraValues(p, u)[0];
        assert x in ExtraValues(p, u);
      }
    }
  }

  // --- the collections the product loop queries ---------------------------

  /** A pricing document: account, product, date range and `prc.disc`,
      None when the document has no `prc`. */
  datatype Doc = Doc(aid: Id, pid: Id, frm: int, to: int, disc: Option<seq<real>>)

  /** The query filter `qf`: `aid` always, the other fields once set. */
  datatype Filter = Filter(aid: Id, pid: Option<Id>, frm: Option<int>, to: Option<int>)

  predicate Matches(d: Doc, f: Filter) {
    && d.aid == f.aid
    && (f.pid.Some? ==> d.pid == f.pid.value)
    && (f.frm.Some? ==> d.frm == f.frm.value)
    && (f.to.Some? ==> d.to == f.to.value)
  }

  /** The items of `xs` without repetitions, in order of first occurrence. */
  function Dedup<T(==,!new)>(xs: seq<T>): (r: seq<T>)
    ensures forall x :: x in r <==> x in xs
    ensures forall i, j | 0 <= i < j < |r| :: r[i] != r[j]
  {
    if xs == [] then []
    else
      var r := Dedup(xs[..|xs| - 1]);
      assert xs == xs[..|xs| - 1] + [xs[|xs| - 1]];
      if xs[|xs| - 1] in r then r else r + [xs[|xs| - 1]]
  }

  /** The `frm` values of the documents matching `f`, in collection order. */
  function Starts(coll: seq<Doc>, f: Filter): (r: seq<int>)
    ensures forall x :: x in r <==> exists i | 0 <= i < |coll| :: Matches(coll[i], f) && coll[i].frm == x
  {
    if coll == [] then []
    else
      var r := (if Matches(coll[0], f) then [coll[0].frm] else []) + Starts(coll[1..], f);
      assert forall i | 0 < i < |coll| :: coll[i] == coll[1..][i - 1];
      r
  }

  /** The `to` values of the documents matching `f`, in collection order. */
  function Ends(coll: seq<Doc>, f: Filter): (r: seq<int>)
    ensures forall x :: x in r <==> exists i | 0 <= i < |coll| :: Matches(coll[i], f) && coll[i].to == x
  {
    if coll == [] then []
    else
      var r := (if Matches(coll[0], f) then [coll[0].to] else []) + Ends(coll[1..], f);
      assert forall i | 0 < i < |coll| :: coll[i] == coll[1..][i - 1];
      r
  }

  /** The products of the documents of account `aid`, in collection order. */
  function Products(coll: seq<Doc>, aid: Id): (r: seq<Id>)
    ensures forall p :: p in r <==> exists i | 0 <= i < |coll| :: coll[i].aid == aid && coll[i].pid == p
  {
    if coll == [] then []
    else
      var r := (if coll[0].aid == aid then [coll[0].pid] else []) + Products(coll[1..], aid);
      assert forall i | 0 < i < |coll| :: coll[i] == coll[1..][i - 1];
      r
  }

  /** `collection_uat.distinct('pid', {'aid': aid})`. */
  function AccountProducts(coll: seq<Doc>, aid: Id): seq<Id> {
    Dedup(Products(coll, aid))
  }

  /** `distinct('pid', {'aid': ...})` on the UAT collection, as a function of the account. */
  function UatProducts(uat: seq<Doc>): Id -> seq<Id> {
    (aid: Id) => AccountProducts(uat, aid)
  }

  /** Python's `zip`: pairs by position, as long as the shorter list. */
  function Zip(xs: seq<int>, ys: seq<int>): (r: seq<(int, int)>)
    ensures |r| == if |xs| < |ys| then |xs| else |ys|
    ensures forall i | 0 <= i < |r| :: r[i] == (xs[i], ys[i])
  {
    if xs == [] || ys == [] then [] else [(xs[0], ys[0])] + Zip(xs[1..], ys[1..])
  }

  /** `zip(collection_uat.distinct('frm', qf), collection_uat.distinct('to', qf))`. */
  function DateRanges(uat: seq<Doc>, qf: Filter): seq<(int, int)> {
    Zip(Dedup(Starts(uat, qf)), Dedup(Ends(uat, qf)))
  }

  /** Every listed range pairs a start and an end date of matching
      documents, and the list is empty exactly when no document matches. */
  lemma DateRangesListed(uat: seq<Doc>, qf: Filter)
    ensures var ranges := DateRanges(uat, qf);
      && (forall i | 0 <= i < |ranges| :: ranges[i].0 in Starts(uat, qf) && ranges[i].1 in Ends(uat, qf))
      && (ranges == [] <==> forall j | 0 <= j < |uat| :: !Matches(uat[j], qf))
  {
    DedupEmpty(Starts(uat, qf));
    DedupEmpty(Ends(uat, qf));
    NoStartsNoMatch(uat, qf);
  }

  lemma DedupEmpty<T(!new)>(xs: seq<T>)
    ensures Dedup(xs) == [] <==> xs == []
  {
    if xs != [] {
      assert xs[0] in Dedup(xs);
    }
  }

  /** Some document matches exactly when the query lists a start date, and
      exactly when it lists an end date. */
  lemma NoStartsNoMatch(uat: seq<Doc>, qf: Filter)
    ensures Starts(uat, qf) == [] <==> forall j | 0 <= j < |uat| :: !Matches(uat[j], qf)
    ensures Ends(uat, qf) == [] <==> forall j | 0 <= j < |uat| :: !Matches(uat[j], qf)
  {
    if j :| 0 <= j < |uat| && Matches(uat[j], qf) {
      assert uat[j].frm in Starts(uat, qf) && uat[j].to in Ends(uat, qf);
    } else {
      NoMatch(uat, qf);
    }
  }

  /** `find_one`: the first matching document. */
  function FindOne(coll: seq<Doc>, f: Filter): (r: Option<Doc>)
    ensures r.Some? ==> r.value in coll && Matches(r.value, f)
    ensures r.None? ==> forall i | 0 <= i < |coll| :: !Matches(coll[i], f)
  {
    if coll == [] then None
    else if Matches(coll[0], f) then Some(coll[0])
    else
      var r := FindOne(coll[1..], f);
      assert forall i | 0 < i < |coll| :: coll[i] == coll[1..][i - 1];
      r
  }

  /** `prc.disc` of a `find_one` result; None when there is no document
      or the projected document is empty. */
  function DiscOf(found: Option<Doc>): Option<seq<real>> {
    if found.Some? then found.value.disc else None
  }

  /** The two `find_one` results for a date range: `prc.disc` of the UAT
      and the production document, None when the document is missing. */
  datatype RangePrices = RangePrices(uatDisc: Option<seq<real>>, prodDisc: Option<seq<real>>)

  /** The document is of account `aid` and product `pid` for the date range `range`. */
  predicate AtRange(d: Doc, aid: Id, pid: Id, range: (int, int)) {
    d.aid == aid && d.pid == pid && d.frm == range.0 && d.to == range.1
  }

  /** The lookups of lines 142-145 for one product and date range. */
  function PricesAt(uat: seq<Doc>, prod: seq<Doc>, aid: Id, pid: Id, range: (int, int)): RangePrices
  {
    var qf := Filter(aid, Some(pid), Some(range.0), Some(range.1));
    RangePrices(DiscOf(FindOne(uat, qf)), DiscOf(FindOne(prod, qf)))
  }

  /** A discount list found for a range is that of a document of the
      account and product for exactly that range in the collection it
      was read from; with no such document, nothing is found. */
  lemma PricesAtFound(uat: seq<Doc>, prod: seq<Doc>, aid: Id, pid: Id, range: (int, int))
    ensures var r := PricesAt(uat, prod, aid, pid, range);
      && (r.uatDisc.Some? ==> exists d | d in uat :: AtRange(d, aid, pid, range) && d.disc == r.uatDisc)
      && (r.prodDisc.Some? ==> exists d | d in prod :: AtRange(d, aid, pid, range) && d.disc == r.prodDisc)
      && ((forall d | d in uat :: !AtRange(d, aid, pid, range)) ==> r.uatDisc.None?)
      && ((forall d | d in prod :: !AtRange(d, aid, pid, range)) ==> r.prodDisc.None?)
  {
  }

  /** Both documents are present and their discount lists differ. */
  predicate Differs(r: RangePrices) {
    r.uatDisc.Some? && r.prodDisc.Some? && r.uatDisc != r.prodDisc
  }

  /** What the range loop finds for one date range. */
  datatype RangeOutcome =
    | MissingData(uatFound: bool, prodFound: bool)
    | SameDiscounts
    | DifferentDiscounts(extraUat: seq<real>, extraProd: seq<real>)

  function OutcomeOf(r: RangePrices): (o: RangeOutcome)
    ensures o.MissingData? <==> r.uatDisc.None? || r.prodDisc.None?
    ensures o.MissingData? ==> o.uatFound == r.uatDisc.Some? && o.prodFound == r.prodDisc.Some?
    ensures o.SameDiscounts? <==> r.uatDisc.Some? && r.prodDisc.Some? && r.uatDisc == r.prodDisc
    ensures o.DifferentDiscounts? <==> Differs(r)
    ensures o.DifferentDiscounts? ==>
      && o.extraUat == ExtraValues(r.uatDisc.value, r.prodDisc.value)
      && o.extraProd == ExtraValues(r.prodDisc.value, r.uatDisc.value)
  {
    if r.uatDisc.None? || r.prodDisc.None? then MissingData(r.uatDisc.Some?, r.prodDisc.Some?)
    else if r.prodDisc.value == r.uatDisc.value then SameDiscounts
    else DifferentDiscounts(ExtraValues(r.uatDisc.value, r.prodDisc.value), ExtraValues(r.prodDisc.value, r.uatDisc.value))
  }

  /** Lines 141-162 for one product: each date range is skipped when a
      document is missing and compared otherwise; a difference sets
      `issueFound`. */
  method ScanRanges(uat: seq<Doc>, prod: seq<Doc>, aid: Id, pid: Id, ranges: seq<(int, int)>, issueBefore: bool)
    returns (issueFound: bool, outcomes: seq<RangeOutcome>)
    ensures |outcomes| == |ranges|
    ensures forall i | 0 <= i < |ranges| :: outcomes[i] == OutcomeOf(PricesAt(uat, prod, aid, pid, ranges[i]))
    ensures issueFound <==> issueBefore || exists i | 0 <= i < |ranges| :: Differs(PricesAt(uat, prod, aid, pid, ranges[i]))
  {
    issueFound := issueBefore;
    outcomes := [];
    for i := 0 to |ranges|
      invariant |outcomes| == i
      invariant forall j | 0 <= j < i :: outcomes[j] == OutcomeOf(PricesAt(uat, prod, aid, pid, ranges[j]))
      invariant issueFound <==> issueBefore || exists j | 0 <= j < i :: Differs(PricesAt(uat, prod, aid, pid, ranges[j]))
    {
      var (frm, to) := ranges[i];
      var qf := Filter(aid, Some(pid), Some(frm), Some(to));
      var productUat, productProd := FindOne(uat, qf), FindOne(prod, qf);
      var prices := RangePrices(DiscOf(productUat), DiscOf(productProd));
      assert prices == PricesAt(uat, prod, aid, pid, ranges[i]);
      if prices.uatDisc.None? || prices.prodDisc.None? {
        outcomes := outcomes + [MissingData(prices.uatDisc.Some?, prices.prodDisc.Some?)];
        continue;
      }
      var discUat, discProd := prices.uatDisc.value, prices.prodDisc.value;
      if discProd != discUat {
        issueFound := true;
        outcomes := outcomes + [DifferentDiscounts(ExtraValues(discUat, discProd), ExtraValues(discProd, discUat))];
      } else {
        outcomes := outcomes + [SameDiscounts];
      }
    }
  }

  // --- which products and date ranges are checked per account -------------

  /** The product lists the account loop uses, as written: the
      `pid_filter or distinct(...)` result is stored back into
      `pid_filter`, so the first account's products are reused for every
      later account. */
  function ProductListsAsWritten(pidFilter: seq<Id>, accountPids: Id -> seq<Id>, aids: seq<Id>): (lists: seq<seq<Id>>)
    ensures |lists| == |aids|
    ensures pidFilter != [] ==> forall i | 0 <= i < |lists| :: lists[i] == pidFilter
    ensures forall i | 0 < i < |lists| && lists[i - 1] != [] :: lists[i] == lists[i - 1]
    decreases aids
  {
    if aids == [] then []
    else
      var pids := if pidFilter != [] then pidFilter else accountPids(aids[0]);
      [pids] + ProductListsAsWritten(pids, accountPids, aids[1..])
  }

  /** Two accounts with one product each. */
  function TwoAccountDocs(): seq<Doc> {
    [Doc("a1", "p1", 1, 2, Some([1.0])), Doc("a2", "p2", 1, 2, Some([1.0]))]
  }

  lemma FirstAccountProducts()
    ensures AccountProducts(TwoAccountDocs(), "a1") == ["p1"]
  {
    var uat := TwoAccountDocs();
    assert uat[1..][1..] == [];
    assert Products(uat[1..][1..], "a1") == [];
    assert "a1"[1] != "a2"[1];
    assert Products(uat[1..], "a1") == [];
    assert Products(uat, "a1") == ["p1"];
    assert Dedup(["p1"]) == ["p1"];
  }

  lemma SecondAccountProducts()
    ensures AccountProducts(TwoAccountDocs(), "a2") == ["p2"]
  {
    var uat := TwoAccountDocs();
    assert uat[1..][1..] == [];
    assert Products(uat[1..][1..], "a2") == [];
    assert Products(uat[1..], "a2") == ["p2"];
    assert "a1"[1] != "a2"[1];
    assert Products(uat, "a2") == ["p2"];
    assert Dedup(["p2"]) == ["p2"];
  }

  /** Without a filter, the first of two accounts supplies the list of both. */
  lemma FirstListReused(accountPids: Id -> seq<Id>, aids: seq<Id>)
    requires |aids| == 2 && accountPids(aids[0]) != []
    ensures ProductListsAsWritten([], accountPids, aids) == [accountPids(aids[0]), accountPids(aids[0])]
  {
    var pids := accountPids(aids[0]);
    assert ProductListsAsWritten([], accountPids, aids) == [pids] + ProductListsAsWritten(pids, accountPids, aids[1..]);
    assert ProductListsAsWritten(pids, accountPids, aids[1..]) == [pids] + ProductListsAsWritten(pids, accountPids, aids[1..][1..]);
    assert aids[1..][1..] == [];
  }

  /** With the documents above, the second account's product is never checked. */
  lemma ProductFilterLeaks()
    ensures var lists := ProductListsAsWritten([], UatProducts(TwoAccountDocs()), ["a1", "a2"]);
      lists == [["p1"], ["p1"]] && "p2" in AccountProducts(TwoAccountDocs(), "a2") && "p2" !in lists[1]
  {
    FirstAccountProducts();
    SecondAccountProducts();
    FirstListReused(UatProducts(TwoAccountDocs()), ["a1", "a2"]);
  }

  /** The product lists as intended: the given filter for every account, or
      else each account's own products. */
  function ProductLists(pidFilter: seq<Id>, accountPids: Id -> seq<Id>, aids: seq<Id>): (lists: seq<seq<Id>>)
    ensures |lists| == |aids|
  {
    if aids == [] then []
    else [if pidFilter != [] then pidFilter else accountPids(aids[0])] + ProductLists(pidFilter, accountPids, aids[1..])
  }

  /** Without a filter every account gets its own products; with one,
      every account gets the filter. */
  lemma {:induction false} ProductListsCover(pidFilter: seq<Id>, accountPids: Id -> seq<Id>, aids: seq<Id>, i: nat)
    requires i < |aids|
    ensures ProductLists(pidFilter, accountPids, aids)[i] == if pidFilter != [] then pidFilter else accountPids(aids[i])
  {
    if i > 0 {
      ProductListsCover(pidFilter, accountPids, aids[1..], i - 1);
    }
  }

  /** Every product of an account's UAT documents is checked for that
      account when no product filter is given. */
  lemma EveryProductChecked(uat: seq<Doc>, aids: seq<Id>, a: nat, d: Doc)
    requires a < |aids| && d in uat && d.aid == aids[a]
    ensures d.pid in ProductLists([], UatProducts(uat), aids)[a]
  {
    ProductListsCover([], UatProducts(uat), aids, a);
    var i :| 0 <= i < |uat| && uat[i] == d;
  }

  /** The filters of the date-range queries, as written: `qf` is created
      once per account, so after the first product it still holds the
      `frm` and `to` of the last date range of an earlier product. */
  function RangeFiltersAsWritten(dateRanges: Filter -> seq<(int, int)>, qf: Filter, pids: seq<Id>): (filters: seq<Filter>)
    ensures |filters| == |pids|
    decreases pids
  {
    if pids == [] then []
    else
      var f := qf.(pid := Some(pids[0]));
      var ranges := dateRanges(f);
      var next := if ranges == [] then f else f.(frm := Some(ranges[|ranges| - 1].0), to := Some(ranges[|ranges| - 1].1));
      [f] + RangeFiltersAsWritten(dateRanges, next, pids[1..])
  }

  /** The date-range query on the UAT collection, as a function of the filter. */
  function UatDateRanges(uat: seq<Doc>): Filter -> seq<(int, int)> {
    (f: Filter) => DateRanges(uat, f)
  }

  /** One account with two products on different dates. */
  function TwoProductDocs(): seq<Doc> {
    [Doc("a", "p1", 1, 2, Some([1.0])), Doc("a", "p2", 3, 4, Some([1.0]))]
  }

  /** Only the document at `i` matches: the query lists its dates alone. */
  lemma {:induction false} OnlyMatch(coll: seq<Doc>, f: Filter, i: nat)
    requires i < |coll| && Matches(coll[i], f)
    requires forall j | 0 <= j < |coll| && j != i :: !Matches(coll[j], f)
    ensures DateRanges(coll, f) == [(coll[i].frm, coll[i].to)]
  {
    StartsEndsOfOnlyMatch(coll, f, i);
    assert Dedup([coll[i].frm]) == [coll[i].frm];
    assert Dedup([coll[i].to]) == [coll[i].to];
  }

  lemma {:induction false} StartsEndsOfOnlyMatch(coll: seq<Doc>, f: Filter, i: nat)
    requires i < |coll| && Matches(coll[i], f)
    requires forall j | 0 <= j < |coll| && j != i :: !Matches(coll[j], f)
    ensures Starts(coll, f) == [coll[i].frm] && Ends(coll, f) == [coll[i].to]
  {
    if i == 0 {
      NoMatch(coll[1..], f);
    } else {
      assert !Matches(coll[0], f);
      StartsEndsOfOnlyMatch(coll[1..], f, i - 1);
    }
  }

  /** No document matches: the query lists nothing. */
  lemma {:induction false} NoMatch(coll: seq<Doc>, f: Filter)
    requires forall j | 0 <= j < |coll| :: !Matches(coll[j], f)
    ensures Starts(coll, f) == [] && Ends(coll, f) == [] && DateRanges(coll, f) == []
  {
    if coll != [] {
      assert !Matches(coll[0], f);
      NoMatch(coll[1..], f);
    }
  }

  lemma FirstProductRanges()
    ensures DateRanges(TwoProductDocs(), Filter("a", Some("p1"), None, None)) == [(1, 2)]
  {
    var uat, f := TwoProductDocs(), Filter("a", Some("p1"), None, None);
    assert "p1"[1] != "p2"[1];
    assert !Matches(uat[1], f);
    OnlyMatch(uat, f, 0);
  }

  lemma StaleProductRanges()
    ensures DateRanges(TwoProductDocs(), Filter("a", Some("p2"), Some(1), Some(2))) == []
  {
    var uat, f := TwoProductDocs(), Filter("a", Some("p2"), Some(1), Some(2));
    assert "p1"[1] != "p2"[1];
    assert !Matches(uat[0], f) && !Matches(uat[1], f);
    NoMatch(uat, f);
  }

  lemma IntendedProductRanges()
    ensures DateRanges(TwoProductDocs(), RangeFilter("a", "p2")) == [(3, 4)]
  {
    var uat, f := TwoProductDocs(), RangeFilter("a", "p2");
    assert "p1"[1] != "p2"[1];
    assert !Matches(uat[0], f);
    OnlyMatch(uat, f, 1);
  }

  /** With the documents above, the second product's date-range query
      still carries the first product's dates, finds nothing, and its
      range is never compared. */
  lemma StaleDateFilter()
    ensures var filters := RangeFiltersAsWritten(UatDateRanges(TwoProductDocs()), Filter("a", None, None, None), ["p1", "p2"]);
      && filters[1] == Filter("a", Some("p2"), Some(1), Some(2))
      && DateRanges(TwoProductDocs(), filters[1]) == []
      && DateRanges(TwoProductDocs(), RangeFilter("a", "p2")) == [(3, 4)]
  {
    FirstProductRanges();
    SecondRangeFilter(UatDateRanges(TwoProductDocs()), Filter("a", None, None, None), ["p1", "p2"]);
    StaleProductRanges();
    IntendedProductRanges();
  }

  /** The second product's filter: the first product's, with `frm` and
      `to` of its last date range when it has one, and the second pid. */
  lemma SecondRangeFilter(dateRanges: Filter -> seq<(int, int)>, qf: Filter, pids: seq<Id>)
    requires |pids| >= 2
    ensures var f := qf.(pid := Some(pids[0]));
      var ranges := dateRanges(f);
      var next := if ranges == [] then f else f.(frm := Some(ranges[|ranges| - 1].0), to := Some(ranges[|ranges| - 1].1));
      RangeFiltersAsWritten(dateRanges, qf, pids)[1] == next.(pid := Some(pids[1]))
  {
    var f := qf.(pid := Some(pids[0]));
    var ranges := dateRanges(f);
    var next := if ranges == [] then f else f.(frm := Some(ranges[|ranges| - 1].0), to := Some(ranges[|ranges| - 1].1));
    var rest := RangeFiltersAsWritten(dateRanges, next, pids[1..]);
    assert RangeFiltersAsWritten(dateRanges, qf, pids) == [f] + rest;
    assert pids[1..][0] == pids[1];
  }

  /** The filter of the date-range queries as intended: the account and
      the product only. */
  function RangeFilter(aid: Id, pid: Id): (f: Filter)
    ensures forall d :: Matches(d, f) <==> d.aid == aid && d.pid == pid
  {
    Filter(aid, Some(pid), None, None)
  }

  /** With that filter every UAT document of the product contributes its
      start and its end date to the listed dates. */
  lemma OwnDatesListed(uat: seq<Doc>, d: Doc)
    requires d in uat
    ensures d.frm in Dedup(Starts(uat, RangeFilter(d.aid, d.pid)))
    ensures d.to in Dedup(Ends(uat, RangeFilter(d.aid, d.pid)))
  {
    var i :| 0 <= i < |uat| && uat[i] == d;
    assert Matches(uat[i], RangeFilter(d.aid, d.pid));
  }

  /** Some date range of product `pid` shows different discounts. */
  predicate ProductDiffers(uat: seq<Doc>, prod: seq<Doc>, aid: Id, pid: Id) {
    var ranges := DateRanges(uat, RangeFilter(aid, pid));
    exists i | 0 <= i < |ranges| :: Differs(PricesAt(uat, prod, aid, pid, ranges[i]))
  }

  predicate AnyProductDiffers(uat: seq<Doc>, prod: seq<Doc>, aid: Id, pids: seq<Id>) {
    exists p | 0 <= p < |pids| :: ProductDiffers(uat, prod, aid, pids[p])
  }

  /** The accounts of `aids` some product of whose list shows a difference, in order. */
  function AccountsWithIssues(uat: seq<Doc>, prod: seq<Doc>, aids: seq<Id>, lists: seq<seq<Id>>): (r: seq<Id>)
    requires |lists| == |aids|
    ensures forall x :: x in r ==> x in aids
  {
    if aids == [] then []
    else
      var n := |aids| - 1;
      var r := AccountsWithIssues(uat, prod, aids[..n], lists[..n]) + (if AnyProductDiffers(uat, prod, aids[n], lists[n]) then [aids[n]] else []);
      assert forall x :: x in aids[..n] ==> x in aids;
      r
  }

  lemma AccountsWithIssuesExtend(uat: seq<Doc>, prod: seq<Doc>, aids: seq<Id>, lists: seq<seq<Id>>, a: nat)
    requires |lists| == |aids| && a < |aids|
    ensures AccountsWithIssues(uat, prod, aids[..a + 1], lists[..a + 1])
      == AccountsWithIssues(uat, prod, aids[..a], lists[..a]) + (if AnyProductDiffers(uat, prod, aids[a], lists[a]) then [aids[a]] else [])
  {
    assert aids[..a + 1][..a] == aids[..a] && lists[..a + 1][..a] == lists[..a];
  }

  /** Lines 128-165 with the intended product lists and date-range
      filters: the accounts for which a product issue is found. */
  method CheckAccounts(uat: seq<Doc>, prod: seq<Doc>, aids: seq<Id>, pidFilter: seq<Id>)
    returns (issueAccounts: seq<Id>)
    ensures issueAccounts == AccountsWithIssues(uat, prod, aids, ProductLists(pidFilter, UatProducts(uat), aids))
  {
    ghost var lists := ProductLists(pidFilter, UatProducts(uat), aids);
    issueAccounts := [];
    for a := 0 to |aids|
      invariant issueAccounts == AccountsWithIssues(uat, prod, aids[..a], lists[..a])
    {
      var aid := aids[a];
      ProductListsCover(pidFilter, UatProducts(uat), aids, a);
      var pids := if pidFilter != [] then pidFilter else AccountProducts(uat, aid);
      assert pids == lists[a];
      var productIssueFound := CheckProducts(uat, prod, aid, pids);
      AccountsWithIssuesExtend(uat, prod, aids, lists, a);
      if productIssueFound {
        issueAccounts := issueAccounts + [aid];
      }
    }
    assert aids[..|aids|] == aids && lists[..|lists|] == lists;
  }

  /** Lines 134-162 for one account: whether any date range of any of its
      products shows different discounts. */
  method CheckProducts(uat: seq<Doc>, prod: seq<Doc>, aid: Id, pids: seq<Id>) returns (productIssueFound: bool)
    ensures productIssueFound <==> AnyProductDiffers(uat, prod, aid, pids)
  {
    productIssueFound := false;
    for p := 0 to |pids|
      invariant productIssueFound <==> AnyProductDiffers(uat, prod, aid, pids[..p])
    {
      var pid := pids[p];
      var qf := RangeFilter(aid, pid);
      var ranges := DateRanges(uat, qf);
      ghost var issueBefore := productIssueFound;
      var outcomes;
      productIssueFound, outcomes := ScanRanges(uat, prod, aid, pid, ranges, productIssueFound);
      assert productIssueFound <==> issueBefore || ProductDiffers(uat, prod, aid, pid);
      AnyProductDiffersExtend(uat, prod, aid, pids, p);
    }
    assert pids[..|pids|] == pids;
  }

  lemma AnyProductDiffersExtend(uat: seq<Doc>, prod: seq<Doc>, aid: Id, pids: seq<Id>, p: nat)
    requires p < |pids|
    ensures AnyProductDiffers(uat, prod, aid, pids[..p + 1])
      <==> AnyProductDiffers(uat, prod, aid, pids[..p]) || ProductDiffers(uat, prod, aid, pids[p])
  {
    assert forall q | 0 <= q < p :: pids[..p + 1][q] == pids[..p][q];
    assert pids[..p + 1][p] == pids[p];
  }

  // --- name filters --------------------------------------------------------

  /** Python's `sub in s` on strings. */
  predicate Contains(s: string, sub: string) {
    exists i | 0 <= i <= |s| - |sub| :: OccursAt(s, sub, i)
  }

  predicate OccursAt(s: string, sub: string, i: nat) {
    i + |sub| <= |s| && s[i..i + |sub|] == sub
  }

  const TmpTableName: string := "TPM-3194_27Mar"

  const ProductionCollections: seq<string> := ["sap_condition", "promotion_internal_price"]

  /** The condition of the purge list comprehension. */
  predicate Removable(x: string, production: string) {
    && Contains(x, production)
    && x != production
    && !Contains(x, TmpTableName)
    && !Contains(x, "autotest")
    && !Contains(x, "backup")
    && x != production + "_tmp"
  }

  /** A removable name strictly extends the production collection name. */
  lemma RemovableIsLonger(x: string, production: string)
    requires Removable(x, production)
    ensures |x| > |production|
  {
    var i :| 0 <= i <= |x| - |production| && OccursAt(x, production, i);
    assert i == 0 ==> x[0..|production|] == production;
  }

  /** The names of `names` that `Removable` keeps, in their order. */
  function ToRemove(names: seq<string>, production: string): (r: seq<string>)
    ensures forall x :: x in r <==> x in names && Removable(x, production)
  {
    if names == [] then []
    else (if Removable(names[0], production) then [names[0]] else []) + ToRemove(names[1..], production)
  }

  /** The purge lists of `productions`, one after the other. */
  function PurgeLists(names: seq<string>, productions: seq<string>): (r: seq<string>)
    ensures forall x :: x in r <==> x in names && exists p | p in productions :: Removable(x, p)
  {
    if productions == [] then []
    else
      var init := productions[..|productions| - 1];
      var r := PurgeLists(names, init) + ToRemove(names, productions[|productions| - 1]);
      assert forall p :: p in productions <==> p in init || p == productions[|productions| - 1];
      r
  }

  /** Lines 193-201: the collections `purge_test_collections` drops or prints. */
  method CollectionsToRemove(names: seq<string>) returns (total: seq<string>)
    ensures total == PurgeLists(names, ProductionCollections)
    ensures forall x :: x in total <==> x in names && (Removable(x, "sap_condition") || Removable(x, "promotion_internal_price"))
  {
    total := [];
    for i := 0 to |ProductionCollections|
      invariant total == PurgeLists(names, ProductionCollections[..i])
    {
      assert ProductionCollections[..i + 1][..i] == ProductionCollections[..i];
      var collectionsToRemove := ToRemove(names, ProductionCollections[i]);
      total := total + collectionsToRemove;
    }
    assert ProductionCollections[..|ProductionCollections|] == ProductionCollections;
  }

  const ExcludedDatabaseMarks: seq<string> := ["demo", "zendesk", "qa", "bootcamp", "test", "system_reporting", "deloitte", "bpx"]

  /** None of the excluded marks occurs in `x`. */
  predicate Production(x: string) {
    forall k | 0 <= k < |ExcludedDatabaseMarks| :: !Contains(x, ExcludedDatabaseMarks[k])
  }

  function KeepProduction(ids: seq<string>): (r: seq<string>)
    ensures forall x :: x in r <==> x in ids && Production(x)
    ensures forall x :: multiset(r)[x] == if Production(x) then multiset(ids)[x] else 0
  {
    if ids == [] then []
    else
      var r := (if Production(ids[0]) then [ids[0]] else []) + KeepProduction(ids[1..]);
      assert ids == [ids[0]] + ids[1..];
      r
  }

  /** Ascending by Python's string order. */
  ghost predicate Ascending(s: seq<string>) {
    forall i, j | 0 <= i < j < |s| :: !StringOrder.Less(s[j], s[i])
  }

  function Insert(x: string, s: seq<string>): (r: seq<string>)
    ensures multiset(r) == multiset(s) + multiset{x}
  {
    if s == [] || !StringOrder.Less(s[0], x) then [x] + s
    else
      var r := [s[0]] + Insert(x, s[1..]);
      assert s == [s[0]] + s[1..];
      r
  }

  lemma {:induction false} InsertAscending(x: string, s: seq<string>)
    requires Ascending(s)
    ensures Ascending(Insert(x, s))
  {
    if s != [] && StringOrder.Less(s[0], x) {
      var t := Insert(x, s[1..]);
      InsertAscending(x, s[1..]);
      forall j | 0 <= j < |t|
        ensures !StringOrder.Less(t[j], s[0])
      {
        assert t[j] in multiset(t);
        if t[j] == x {
          StringOrder.LessAsymmetric(s[0], x);
        } else {
          assert t[j] in multiset(s[1..]);
          var m :| 0 <= m < |s[1..]| && s[1..][m] == t[j];
          assert s[m + 1] == t[j];
        }
      }
      ConsAscending(s[0], t);
    } else {
      forall j | 0 <= j < |s|
        ensures !StringOrder.Less(s[j], x)
      {
        if j > 0 {
          StringOrder.NotLessTransitive(s[j], s[0], x);
        }
      }
      ConsAscending(x, s);
    }
  }

  /** An item no later item precedes, put before an ascending sequence. */
  lemma ConsAscending(y: string, t: seq<string>)
    requires Ascending(t) && forall j | 0 <= j < |t| :: !StringOrder.Less(t[j], y)
    ensures Ascending([y] + t)
  {
    var r := [y] + t;
    forall i, j | 0 <= i < j < |r|
      ensures !StringOrder.Less(r[j], r[i])
    {
      assert r[j] == t[j - 1];
      if i > 0 {
        assert r[i] == t[i - 1];
      }
    }
  }

  /** Python's `sorted` on strings. */
  function SortStrings(xs: seq<string>): (r: seq<string>)
    ensures multiset(r) == multiset(xs)
  {
    if xs == [] then [] else
      var r := Insert(xs[0], SortStrings(xs[1..]));
      assert xs == [xs[0]] + xs[1..];
      r
  }

  lemma {:induction false} SortStringsAscending(xs: seq<string>)
    ensures Ascending(SortStrings(xs))
  {
    if xs != [] {
      SortStringsAscending(xs[1..]);
      InsertAscending(xs[0], SortStrings(xs[1..]));
    }
  }

  /** Lines 170-180: the database ids without any excluded mark, ascending. */
  function DbList(ids: seq<string>): (r: seq<string>)
    ensures forall x :: x in r <==> x in ids && Production(x)
  {
    var r := SortStrings(KeepProduction(ids));
    assert forall x :: x in r <==> x in multiset(r);
    r
  }

  /** The list is ascending and holds each kept id as often as `ids` does. */
  lemma DbListSortedPermutation(ids: seq<string>)
    ensures Ascending(DbList(ids))
    ensures multiset(DbList(ids)) == multiset(KeepProduction(ids))
  {
    SortStringsAscending(KeepProduction(ids));
  }
}
