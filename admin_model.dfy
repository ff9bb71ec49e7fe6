/**
 * The admin models of both payment methods (`emerchantpay_checkout` and
 * `emerchantpay_direct`): the read queries over the transactions table,
 * the amount sum, transaction ids and the list of selectable transaction
 * types. The two models differ only in the order filter of
 * `getTransactionsByOrder` and in their type lists.
 */
module AdminModel {
  import opened Php
  import opened Rows
  import opened DbHelper
  import Genesis
  import EmerchantpayHelper

  datatype Flavor = Checkout | Direct

  /** The rows filed under `ids`, in that order. */
  function RowsOf(ids: seq<string>, rows: map<string, Row>): (r: seq<Row>)
    requires forall k | 0 <= k < |ids| :: ids[k] in rows
    ensures |r| == |ids| && forall k | 0 <= k < |ids| :: r[k] == rows[ids[k]]
  {
    if ids == [] then [] else RowsOf(ids[..|ids| - 1], rows) + [rows[ids[|ids| - 1]]]
  }

  /** The rows of `table` that satisfy `m`, in table order (a WHERE clause). */
  function Select(table: seq<Row>, m: Row -> bool): (r: seq<Row>)
    ensures forall x | x in r :: x in table && m(x)
    ensures forall k | 0 <= k < |table| && m(table[k]) :: table[k] in r
    ensures |r| <= |table|
  {
    if table == [] then []
    else Select(table[..|table| - 1], m) + (if m(table[|table| - 1]) then [table[|table| - 1]] else [])
  }

  /** No two rows share a `unique_id`. */
  predicate UniqueIds(rows: seq<Row>)
  {
    forall i, j | 0 <= i < j < |rows| :: Text(Get(rows[i], UniqueId)) != Text(Get(rows[j], UniqueId))
  }

  /** A WHERE clause keeps the rows' `unique_id`s apart. */
  lemma {:induction false} SelectUniqueIds(table: seq<Row>, m: Row -> bool)
    requires UniqueIds(table)
    ensures UniqueIds(Select(table, m))
  {
    if table != [] {
      var rest := table[..|table| - 1];
      assert UniqueIds(rest) by {
        forall i, j | 0 <= i < j < |rest| ensures Text(Get(rest[i], UniqueId)) != Text(Get(rest[j], UniqueId)) {
          assert rest[i] == table[i] && rest[j] == table[j];
        }
      }
      SelectUniqueIds(rest, m);
      SelectLastUnique(table, m);
    }
  }

  /** The step of `SelectUniqueIds`: the last row, when selected, differs from every row selected before it. */
  lemma SelectLastUnique(table: seq<Row>, m: Row -> bool)
    requires table != [] && UniqueIds(table)
    requires UniqueIds(Select(table[..|table| - 1], m))
    ensures UniqueIds(Select(table, m))
  {
    var n := |table|;
    var rest := table[..n - 1];
    var s := Select(rest, m);
    var last := table[n - 1];
    if m(last) {
      LastDiffers(table, s);
      UniqueIdsAppend(s, last);
    }
  }

  lemma LastDiffers(table: seq<Row>, s: seq<Row>)
    requires table != [] && UniqueIds(table)
    requires forall x | x in s :: x in table[..|table| - 1]
    ensures forall x | x in s :: Text(Get(x, UniqueId)) != Text(Get(table[|table| - 1], UniqueId))
  {
    var rest := table[..|table| - 1];
    forall x | x in s ensures Text(Get(x, UniqueId)) != Text(Get(table[|table| - 1], UniqueId)) {
      var k :| 0 <= k < |rest| && rest[k] == x;
      assert table[k] == x;
    }
  }

  lemma UniqueIdsAppend(s: seq<Row>, x: Row)
    requires UniqueIds(s)
    requires forall y | y in s :: Text(Get(y, UniqueId)) != Text(Get(x, UniqueId))
    ensures UniqueIds(s + [x])
  {
    forall i, j | 0 <= i < j < |s + [x]| ensures Text(Get((s + [x])[i], UniqueId)) != Text(Get((s + [x])[j], UniqueId)) {
      assert (s + [x])[i] == s[i];
      if j == |s| {
        assert (s + [x])[j] == x;
        assert s[i] in s;
      } else {
        assert (s + [x])[j] == s[j];
      }
    }
  }

  function Abs(n: int): nat
  {
    if n < 0 then -n else n
  }

  /** `type in ('<implode>')`: an empty list leaves the single value ''. */
  function TypeList(types: seq<string>): (r: seq<string>)
    ensures r != []
    ensures types != [] ==> r == types
  {
    if types == [] then [""] else types
  }

  /** The WHERE clause of `getTransactionsByTypeAndStatus`. */
  predicate Matches(row: Row, orderId: int, reference: Value, types: seq<string>, status: string)
  {
    IntOf(Get(row, OrderId)) == orderId &&
    (Truthy(reference) ==> Text(Get(row, ReferenceId)) == Text(reference)) &&
    Text(Get(row, Type)) in TypeList(types) &&
    Text(Get(row, Status)) == status
  }

  /** The `order_id` the order queries look for: `abs(intval(...))` for checkout, `intval(...)` for direct. */
  function OrderKey(flavor: Flavor, orderId: Value): int
  {
    match flavor
    case Checkout => Abs(IntOf(orderId))
    case Direct => IntOf(orderId)
  }

  /** The sum of the `amount` cells of some rows (`$total += $row['amount']`). */
  function AmountSum(rows: seq<Row>): int
  {
    if rows == [] then 0 else AmountSum(rows[..|rows| - 1]) + AmountOf(Get(rows[|rows| - 1], Amount))
  }

  /** The `foreach` of `getTransactionsSumAmount`: adds up the `amount` cells one row at a time. */
  method SumAmounts(rows: seq<Row>) returns (total: int)
    ensures total == AmountSum(rows)
  {
    total := 0;
    var i := 0;
    while i < |rows|
      invariant 0 <= i <= |rows|
      invariant total == AmountSum(rows[..i])
    {
      assert rows[..i + 1][..i] == rows[..i];
      total := total + AmountOf(Get(rows[i], Amount));
      i := i + 1;
    }
    assert rows[..i] == rows;
  }

  lemma {:induction false} AmountSumAppend(a: seq<Row>, b: seq<Row>)
    ensures AmountSum(a + b) == AmountSum(a) + AmountSum(b)
  {
    if b == [] {
      assert a + b == a;
    } else {
      assert (a + b)[..|a + b| - 1] == a + b[..|b| - 1];
      assert (a + b)[|a + b| - 1] == b[|b| - 1];
      AmountSumAppend(a, b[..|b| - 1]);
    }
  }

  /** Splitting a table by a condition splits its sum: the matching rows' sum plus the rest's is the whole. */
  lemma {:induction false} AmountSumSplit(table: seq<Row>, m: Row -> bool)
    ensures AmountSum(Select(table, m)) + AmountSum(Select(table, x => !m(x))) == AmountSum(table)
  {
    if table != [] {
      var n := |table|;
      var last := table[n - 1];
      AmountSumSplit(table[..n - 1], m);
      AmountSumAppend(Select(table[..n - 1], m), if m(last) then [last] else []);
      AmountSumAppend(Select(table[..n - 1], x => !m(x)), if !m(last) then [last] else []);
      assert AmountSum([last]) == AmountOf(Get(last, Amount)) by {
        assert [last][..0] == [];
      }
    }
  }

  /** With no negative amount stored, a sum is never negative. */
  lemma {:induction false} AmountSumNonNegative(rows: seq<Row>)
    requires forall k | 0 <= k < |rows| :: AmountOf(Get(rows[k], Amount)) >= 0
    ensures AmountSum(rows) >= 0
  {
    if rows != [] {
      AmountSumNonNegative(rows[..|rows| - 1]);
    }
  }

  /**
   * `genTransactionId($prefix)`: the prefix followed by the last
   * `32 - strlen($prefix)` characters of a 32-character md5 hash (the hash
   * itself is random and given here). A 32-character prefix makes
   * `substr($hash, -0)` return the whole hash.
   */
  function GenTransactionId(prefix: string, hash: string): (r: string)
    requires |hash| == 32
    ensures prefix <= r
    ensures |prefix| < 32 ==> |r| == 32 && r[|prefix|..] == hash[|prefix|..]
    ensures |prefix| == 32 ==> r == prefix + hash
    ensures |prefix| > 32 ==> |r| == (if |prefix| <= 64 then 64 else |prefix|)
  {
    prefix + SubstrFrom(hash, -(|hash| - |prefix|))
  }

  /** Different hashes give different ids for the same short prefix: the id keeps the hash's tail. */
  lemma GenTransactionIdDistinguishes(prefix: string, hash1: string, hash2: string)
    requires |hash1| == 32 && |hash2| == 32 && |prefix| < 32
    ensures GenTransactionId(prefix, hash1) == GenTransactionId(prefix, hash2) <==> hash1[|prefix|..] == hash2[|prefix|..]
  {
    var a := GenTransactionId(prefix, hash1);
    var b := GenTransactionId(prefix, hash2);
    if hash1[|prefix|..] == hash2[|prefix|..] {
      assert a == prefix + hash1[|prefix|..];
      assert b == prefix + hash2[|prefix|..];
    }
  }

  /** One entry of a transaction-type list: `['id' => ..., 'name' => ...]`. */
  datatype TypeEntry = TypeEntry(id: string, name: string)

  /** OpenCart's `$this->language->get($key)`: the phrase, or the key itself when there is none. */
  function Phrase(language: map<string, string>, key: string): string
  {
    if key in language then language[key] else key
  }

  /**
   * The label of a type: its `text_transaction_<type>` phrase; when that is
   * missing, the SDK's name for an SDK type and the upper-cased type otherwise.
   */
  function TypeName(sdk: Genesis.Sdk, language: map<string, string>, t: string): string
  {
    var name := Phrase(language, EmerchantpayHelper.TransactionLanguagePrefix + t);
    if Contains(name, "text_transaction") then
      (if t in sdk.validTypes then sdk.names(t) else Upper(t))
    else name
  }

  /** An untranslated type the SDK does not know is shown as its upper-cased id. */
  lemma UntranslatedTypeName(sdk: Genesis.Sdk, language: map<string, string>, t: string)
    requires EmerchantpayHelper.TransactionLanguagePrefix + t !in language && t !in sdk.validTypes
    ensures TypeName(sdk, language, t) == Upper(t)
  {
    var key := EmerchantpayHelper.TransactionLanguagePrefix + t;
    assert key[0..16] == "text_transaction";
    assert OccursAt(key, "text_transaction", 0);
  }

  /** A translated phrase is used as it is, whatever the SDK says. */
  lemma TranslatedTypeName(sdk: Genesis.Sdk, language: map<string, string>, t: string)
    requires EmerchantpayHelper.TransactionLanguagePrefix + t in language
    requires !Contains(language[EmerchantpayHelper.TransactionLanguagePrefix + t], "text_transaction")
    ensures TypeName(sdk, language, t) == language[EmerchantpayHelper.TransactionLanguagePrefix + t]
  {
  }

  /** The types the checkout settings do not offer on their own. */
  const ExcludedTypes: seq<string> := EmerchantpayHelper.RecurringTransactionTypes +
    [Genesis.SddInitRecurringSale, Genesis.Ppro, Genesis.GooglePay, Genesis.PayPal, Genesis.ApplePay]

  /** The wallet subtypes offered in their place. */
  const WalletTypes: seq<string> := [
    EmerchantpayHelper.GooglePayTransactionPrefix + Genesis.SubtypeAuthorize,
    EmerchantpayHelper.GooglePayTransactionPrefix + Genesis.SubtypeSale,
    EmerchantpayHelper.PayPalTransactionPrefix + Genesis.SubtypeAuthorize,
    EmerchantpayHelper.PayPalTransactionPrefix + Genesis.SubtypeSale,
    EmerchantpayHelper.PayPalTransactionPrefix + Genesis.SubtypeExpress,
    EmerchantpayHelper.ApplePayTransactionPrefix + Genesis.SubtypeAuthorize,
    EmerchantpayHelper.ApplePayTransactionPrefix + Genesis.SubtypeSale]

  /** The keys of a PHP array held as a list of pairs, in order. */
  function Keys<V>(d: seq<(string, V)>): (r: seq<string>)
    ensures |r| == |d| && forall k | 0 <= k < |d| :: r[k] == d[k].0
  {
    seq(|d|, k requires 0 <= k < |d| => d[k].0)
  }

  /** The array has an entry under that key. */
  predicate HasKey<V>(d: seq<(string, V)>, key: string)
  {
    key in Keys(d)
  }

  function Identity(t: string): string
  {
    t
  }

  /**
   * The checkout `getTransactionTypes`: the WPF types without the excluded
   * ones, plus the wallet subtypes, sorted (`asort`), each filed under its
   * own id with its label.
   */
  method GetTransactionTypes(sdk: Genesis.Sdk, language: map<string, string>) returns (data: seq<(string, TypeEntry)>)
    ensures forall t :: HasKey(data, t) <==> (t in sdk.wpfTypes && t !in ExcludedTypes) || t in WalletTypes
    ensures forall i, j | 0 <= i < j < |data| :: data[i].0 != data[j].0 && StrLe(data[i].0, data[j].0)
    ensures forall k | 0 <= k < |data| :: data[k].1 == TypeEntry(data[k].0, TypeName(sdk, language, data[k].0))
  {
    var types := Without(sdk.wpfTypes, ExcludedTypes) + WalletTypes;
    assert forall t :: t in types <==> (t in sdk.wpfTypes && t !in ExcludedTypes) || t in WalletTypes;
    var sorted := StableSortBy(types, Identity);
    SameMembers(sorted, types);
    data := FileTypes(sorted, sdk, language);
  }

  lemma SameMembers(a: seq<string>, b: seq<string>)
    requires multiset(a) == multiset(b)
    ensures forall t :: t in a <==> t in b
  {
    forall t ensures t in a <==> t in b {
      assert t in a <==> t in multiset(a);
      assert t in b <==> t in multiset(b);
    }
  }

  /** The `foreach` of `getTransactionTypes`: `$data[$type] = [id, name]` over the sorted types. */
  method FileTypes(sorted: seq<string>, sdk: Genesis.Sdk, language: map<string, string>) returns (data: seq<(string, TypeEntry)>)
    requires SortedBy(sorted, Identity)
    ensures forall t :: HasKey(data, t) <==> t in sorted
    ensures forall i, j | 0 <= i < j < |data| :: data[i].0 != data[j].0 && StrLe(data[i].0, data[j].0)
    ensures forall k | 0 <= k < |data| :: data[k].1 == TypeEntry(data[k].0, TypeName(sdk, language, data[k].0))
  {
    ghost var names := t => TypeName(sdk, language, t);
    data := [];
    var i := 0;
    while i < |sorted|
      invariant 0 <= i <= |sorted|
      invariant TypesFiled(data, sorted[..i], names)
    {
      ghost var before := data;
      data := Put(data, sorted[i], TypeEntry(sorted[i], TypeName(sdk, language, sorted[i])));
      assert TypeName(sdk, language, sorted[i]) == names(sorted[i]);
      if HasKey(before, sorted[i]) {
        PutExisting(sorted, i, before, names);
      } else {
        PutNew(sorted, i, before, names);
      }
      i := i + 1;
    }
    assert sorted[..i] == sorted;
  }

  /** Distinct keys in ascending order. */
  ghost predicate Ascending(keys: seq<string>)
  {
    forall a, b | 0 <= a < b < |keys| :: keys[a] != keys[b] && StrLe(keys[a], keys[b])
  }

  /**
   * The types filed so far: exactly the keys seen, in order and each once,
   * each with its own id and its names.
   */
  ghost predicate TypesFiled(data: seq<(string, TypeEntry)>, seen: seq<string>, names: string -> string)
  {
    (forall t :: t in Keys(data) <==> t in seen) &&
    Ascending(Keys(data)) &&
    (forall k | 0 <= k < |data| :: data[k].1 == TypeEntry(data[k].0, names(data[k].0)))
  }

  /** The first position of a key the array has. */
  function KeyIndex<V>(d: seq<(string, V)>, key: string): (k: nat)
    requires HasKey(d, key)
    ensures k < |d| && d[k].0 == key
  {
    if d[0].0 == key then 0
    else
      assert Keys(d[1..]) == Keys(d)[1..];
      1 + KeyIndex(d[1..], key)
  }

  /** `$d[$key] = $value`: the entry with that key takes the value, or a new entry is appended. */
  function Put<V>(d: seq<(string, V)>, key: string, value: V): (r: seq<(string, V)>)
    ensures Keys(r) == if HasKey(d, key) then Keys(d) else Keys(d) + [key]
  {
    if HasKey(d, key) then
      var r := d[KeyIndex(d, key) := (key, value)];
      assert Keys(r) == Keys(d);
      r
    else
      var r := d + [(key, value)];
      assert Keys(r) == Keys(d) + [key];
      r
  }

  /** The loop step for a type already filed: its entry is rewritten in place, the keys stay. */
  lemma PutExisting(sorted: seq<string>, i: nat, before: seq<(string, TypeEntry)>, names: string -> string)
    requires i < |sorted| && TypesFiled(before, sorted[..i], names) && HasKey(before, sorted[i])
    ensures TypesFiled(Put(before, sorted[i], TypeEntry(sorted[i], names(sorted[i]))), sorted[..i + 1], names)
  {
    var t := sorted[i];
    var entry := TypeEntry(t, names(t));
    var n := KeyIndex(before, t);
    var data := before[n := (t, entry)];
    assert Put(before, t, entry) == data;
    forall k | 0 <= k < |data| ensures data[k].1 == TypeEntry(data[k].0, names(data[k].0)) {
      if k != n {
        assert data[k] == before[k];
      }
    }
    TakeNext(sorted, i);
  }

  /** The loop step for a new type: it is appended, and it sorts after every type filed before it. */
  lemma PutNew(sorted: seq<string>, i: nat, before: seq<(string, TypeEntry)>, names: string -> string)
    requires SortedBy(sorted, Identity)
    requires i < |sorted| && TypesFiled(before, sorted[..i], names) && !HasKey(before, sorted[i])
    ensures TypesFiled(Put(before, sorted[i], TypeEntry(sorted[i], names(sorted[i]))), sorted[..i + 1], names)
  {
    var t := sorted[i];
    var entry := TypeEntry(t, names(t));
    forall a | 0 <= a < |before| ensures before[a].0 != t && StrLe(before[a].0, t) {
      assert Keys(before)[a] in sorted[..i];
      var p :| 0 <= p < i && sorted[p] == before[a].0;
      assert StrLe(Identity(sorted[p]), Identity(sorted[i]));
    }
    assert Put(before, t, entry) == before + [(t, entry)];
    TakeNext(sorted, i);
    FiledAppend(before, sorted[..i], t, names);
  }

  /** Appending a type that sorts after, and differs from, every type filed keeps the table filed. */
  lemma FiledAppend(before: seq<(string, TypeEntry)>, seen: seq<string>, t: string, names: string -> string)
    requires TypesFiled(before, seen, names)
    requires forall a | 0 <= a < |before| :: before[a].0 != t && StrLe(before[a].0, t)
    ensures TypesFiled(before + [(t, TypeEntry(t, names(t)))], seen + [t], names)
  {
    var data := before + [(t, TypeEntry(t, names(t)))];
    var keys := Keys(data);
    assert keys == Keys(before) + [t];
    forall a, b | 0 <= a < b < |keys| ensures keys[a] != keys[b] && StrLe(keys[a], keys[b]) {
      assert keys[a] == before[a].0;
      if b < |before| {
        assert keys[b] == Keys(before)[b];
      }
    }
    forall k | 0 <= k < |data| ensures data[k].1 == TypeEntry(data[k].0, names(data[k].0)) {
      if k < |before| {
        assert data[k] == before[k];
      }
    }
  }

  /** The direct model's `getTransactionTypes`: a fixed table of the four card types. */
  function DirectTransactionTypes(sdk: Genesis.Sdk): (data: seq<(string, TypeEntry)>)
    ensures forall t :: HasKey(data, t) <==> t in {Genesis.Authorize, Genesis.Authorize3d, Genesis.Sale, Genesis.Sale3d}
    ensures forall k | 0 <= k < |data| :: data[k].1 == TypeEntry(data[k].0, sdk.names(data[k].0))
    ensures forall i, j | 0 <= i < j < |data| :: data[i].0 != data[j].0
  {
    var keys := [Genesis.Authorize, Genesis.Authorize3d, Genesis.Sale, Genesis.Sale3d];
    var data := seq(4, k requires 0 <= k < 4 => (keys[k], TypeEntry(keys[k], sdk.names(keys[k]))));
    assert forall t | t in {Genesis.Authorize, Genesis.Authorize3d, Genesis.Sale, Genesis.Sale3d} :: HasKey(data, t) by {
      assert data[0].0 == Genesis.Authorize && data[1].0 == Genesis.Authorize3d;
      assert data[2].0 == Genesis.Sale && data[3].0 == Genesis.Sale3d;
    }
    data
  }

  /**
   * An admin model bound to its transactions table.
   */
  class AdminModel {
    const db: DbHelper
    const flavor: Flavor

    constructor(db: DbHelper, flavor: Flavor)
      ensures this.db == db && this.flavor == flavor
    {
      this.db := db;
      this.flavor := flavor;
    }

    /** The whole table, in the order the rows were inserted (the order the queries return them in). */
    function Table(): (r: seq<Row>)
      reads db
      requires db.Valid()
      ensures |r| == |db.ids|
    {
      RowsOf(db.ids, db.rows)
    }

    /** Every row of the table has its own `unique_id` (the primary key). */
    lemma TableUniqueIds()
      requires db.Valid()
      ensures UniqueIds(Table())
    {
      assert forall k | 0 <= k < |Table()| :: Text(Get(Table()[k], UniqueId)) == db.ids[k];
    }

    /** `getTransactionById`: the row whose `unique_id` is `id`, or false. */
    function GetTransactionById(id: string): (r: Option<Row>)
      reads db
      requires db.Valid()
      ensures r.Some? <==> exists k | 0 <= k < |Table()| :: Text(Get(Table()[k], UniqueId)) == id
      ensures r.Some? ==> r.value in Table() && Text(Get(r.value, UniqueId)) == id
    {
      if id in db.rows then
        var k :| 0 <= k < |db.ids| && db.ids[k] == id;
        assert Table()[k] == db.rows[id];
        Some(db.rows[id])
      else
        assert forall k | 0 <= k < |Table()| :: Text(Get(Table()[k], UniqueId)) == db.ids[k];
        None
    }

    /**
     * `getTransactionsByTypeAndStatus`: the rows of the order (`abs(intval)`)
     * with one of the types and the status, and with the reference when one
     * is given; false when there are none.
     */
    function GetTransactionsByTypeAndStatus(orderId: Value, reference: Value, types: seq<string>, status: string): (r: Option<seq<Row>>)
      reads db
      requires db.Valid()
      ensures r.None? <==> forall x | x in Table() :: !Matches(x, Abs(IntOf(orderId)), reference, types, status)
      ensures r.Some? ==> r.value != [] && forall x :: x in r.value <==> x in Table() && Matches(x, Abs(IntOf(orderId)), reference, types, status)
    {
      var found := Select(Table(), x => Matches(x, Abs(IntOf(orderId)), reference, types, status));
      if found == [] then
        forall x | x in Table() ensures !Matches(x, Abs(IntOf(orderId)), reference, types, status) {
          var k :| 0 <= k < |Table()| && Table()[k] == x;
        }
        None
      else
        assert found[0] in found;
        Some(found)
    }

    /**
     * `getTransactionsSumAmount`: the sum of `amount` over exactly the rows
     * `getTransactionsByTypeAndStatus` returns, 0 when it returns false.
     */
    method GetTransactionsSumAmount(orderId: Value, reference: Value, types: seq<string>, status: string) returns (total: int)
      requires db.Valid()
      ensures GetTransactionsByTypeAndStatus(orderId, reference, types, status).None? ==> total == 0
      ensures GetTransactionsByTypeAndStatus(orderId, reference, types, status).Some? ==>
        total == AmountSum(GetTransactionsByTypeAndStatus(orderId, reference, types, status).value)
    {
      var transactions := GetTransactionsByTypeAndStatus(orderId, reference, types, status);
      total := 0;
      if transactions.Some? {
        total := SumAmounts(transactions.value);
      }
    }

    /** `getTransactionsByOrder`: every row of the order, or false when it has none. */
    function GetTransactionsByOrder(orderId: Value): (r: Option<seq<Row>>)
      reads db
      requires db.Valid()
      ensures r.None? <==> forall x | x in Table() :: IntOf(Get(x, OrderId)) != OrderKey(flavor, orderId)
      ensures r.Some? ==> r.value != [] && forall x :: x in r.value <==> x in Table() && IntOf(Get(x, OrderId)) == OrderKey(flavor, orderId)
      ensures r.Some? ==> UniqueIds(r.value)
    {
      var found := Select(Table(), x => IntOf(Get(x, OrderId)) == OrderKey(flavor, orderId));
      TableUniqueIds();
      SelectUniqueIds(Table(), x => IntOf(Get(x, OrderId)) == OrderKey(flavor, orderId));
      if found == [] then
        forall x | x in Table() ensures IntOf(Get(x, OrderId)) != OrderKey(flavor, orderId) {
          var k :| 0 <= k < |Table()| && Table()[k] == x;
        }
        None
      else
        assert found[0] in found;
        Some(found)
    }
  }

  /** The direct model keeps the sign of the order id, so `-5` finds the rows of order -5, not of order 5. */
  lemma DirectOrderKeyKeepsSign(orderId: Value)
    requires IntOf(orderId) < 0
    ensures OrderKey(Direct, orderId) != OrderKey(Checkout, orderId)
    ensures OrderKey(Checkout, orderId) == -OrderKey(Direct, orderId)
  {
  }
}
