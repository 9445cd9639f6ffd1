/**
 * The two DynamoDB tables as the handlers use them: a customer table keyed
 * by `customerId` that is written in place, and the addresses table, which
 * is only ever filter-scanned by `customerId`.
 */
module Store {
  import opened Values

  /**
   * The key schema: every item carries its partition key `customerId` as a
   * string attribute equal to the key it is stored under.
   */
  predicate Keyed(items: map<string, Attrs>)
  {
    forall id :: id in items ==> "customerId" in items[id] && items[id]["customerId"] == Str(id)
  }

  /** A customer table. A request the store rejects (`fails`) changes nothing. */
  class Table {
    var items: map<string, Attrs>

    ghost predicate Valid()
      reads this
    {
      Keyed(items)
    }

    constructor (items: map<string, Attrs>)
      requires Keyed(items)
      ensures Valid() && this.items == items
    {
      this.items := items;
    }

    /** `PutCommand`: stores `item` under `key`, replacing whatever was there. */
    method Put(key: string, item: Attrs, fails: bool) returns (ok: bool)
      requires Valid()
      requires "customerId" in item && item["customerId"] == Str(key)
      modifies this
      ensures Valid()
      ensures ok == !fails
      ensures items == if ok then old(items)[key := item] else old(items)
    {
      ok := !fails;
      if ok {
        items := items[key := item];
      }
    }

    /**
     * `UpdateItemCommand` with `SET a = v, ...` for every attribute of
     * `updates` and `ReturnValues: "UPDATED_NEW"`: on success it returns the
     * new values of exactly the attributes it set, in the store's attribute
     * value format. An existing item keeps
     * every other attribute; what an absent key holds afterwards beyond the
     * set attributes is left to the store.
     */
    method Set(key: string, updates: Attrs, fails: bool) returns (r: Outcome<Attrs>)
      requires Valid()
      requires "customerId" !in updates
      requires forall a :: a in updates ==> Scalar(updates[a])
      modifies this
      ensures Valid()
      ensures r == if fails then Failed else Ok(WireAttrs(updates))
      ensures fails ==> items == old(items)
      ensures !fails && key in old(items) ==> items == old(items)[key := old(items)[key] + updates]
      ensures !fails ==> items.Keys == old(items).Keys + {key}
      ensures !fails ==> forall id :: id in old(items) && id != key ==> items[id] == old(items)[id]
      ensures !fails ==> forall a :: a in updates ==> a in items[key] && items[key][a] == updates[a]
    {
      if fails {
        return Failed;
      }
      var base := if key in items then items[key] else map["customerId" := Str(key)];
      items := items[key := base + updates];
      r := Ok(WireAttrs(updates));
    }
  }

  /** The decimal digits of `n`, most significant first, without leading zeros. */
  function Digits(n: nat): (s: string)
    ensures s != [] && '0' <= s[0] <= '9'
    ensures |s| > 1 ==> s[0] != '0'
    ensures forall i :: 0 <= i < |s| ==> '0' <= s[i] <= '9'
  {
    if n < 10 then [DigitChar(n)] else Digits(n / 10) + [DigitChar(n % 10)]
  }

  function DigitChar(d: nat): (c: char)
    requires d < 10
    ensures c as int - '0' as int == d
  {
    ('0' as int + d) as char
  }

  /** `n.toString()` for an integer: its digits, after a `-` when it is negative. */
  function NumberText(n: int): (t: string)
    ensures t != [] && (t[0] == '-' <==> n < 0)
  {
    if n < 0 then "-" + Digits(-n) else Digits(n)
  }

  /** The value of a run of decimal digits. */
  function DigitsValue(s: string): int
  {
    if s == [] then 0 else DigitsValue(s[..|s| - 1]) * 10 + (s[|s| - 1] as int - '0' as int)
  }

  /** The number an `N` attribute's text denotes. */
  function NumberValue(t: string): int
  {
    if t != [] && t[0] == '-' then -DigitsValue(t[1..]) else DigitsValue(t)
  }

  lemma {:induction false} DigitsRoundTrip(n: nat)
    ensures DigitsValue(Digits(n)) == n
  {
    if n >= 10 {
      var s := Digits(n);
      assert s[..|s| - 1] == Digits(n / 10);
      DigitsRoundTrip(n / 10);
    }
  }

  /** The text of a number reads back as that number. */
  lemma NumberTextRoundTrip(n: int)
    ensures NumberValue(NumberText(n)) == n
  {
    if n < 0 {
      assert NumberText(n)[1..] == Digits(-n);
      DigitsRoundTrip(-n);
    } else {
      DigitsRoundTrip(n);
    }
  }

  /** A value the `SET` expressions here assign: a string (`S`) or a number (`N`). */
  predicate Scalar(v: Value)
  {
    v.Str? || v.Num?
  }

  /** `{ S: s }` for a string, `{ N: n.toString() }` for a number: an attribute as the store returns it. */
  function Wire(v: Value): Value
    requires Scalar(v)
  {
    if v.Str? then Obj(map["S" := v]) else Obj(map["N" := Str(NumberText(v.n))])
  }

  /** `unmarshall` of one `S` or `N` attribute value; None for anything else. */
  function Unwire(w: Value): Option<Value>
  {
    if w.Obj? && "S" in w.fields && w.fields["S"].Str? then Some(w.fields["S"])
    else if w.Obj? && "N" in w.fields && w.fields["N"].Str? then Some(Num(NumberValue(w.fields["N"].s)))
    else None
  }

  /** Every scalar reads back from its attribute value. */
  lemma WireRoundTrip(v: Value)
    requires Scalar(v)
    ensures Unwire(Wire(v)) == Some(v)
  {
    if v.Num? {
      NumberTextRoundTrip(v.n);
    }
  }

  /**
   * The attributes `UPDATED_NEW` hands back, each in attribute value form:
   * the same names, and each reads back as the value that was set.
   */
  function WireAttrs(a: Attrs): (r: Attrs)
    requires forall k :: k in a ==> Scalar(a[k])
    ensures r.Keys == a.Keys
    ensures forall k :: k in a ==> r[k].Obj? && Unwire(r[k]) == Some(a[k])
  {
    assert forall k :: k in a ==> Unwire(Wire(a[k])) == Some(a[k]) by {
      forall k | k in a {
        WireRoundTrip(a[k]);
      }
    }
    map k | k in a :: Wire(a[k])
  }

  /**
   * The addresses table as a filter-scan sees it: its rows in scan order, and
   * the customer ids whose scan the store rejects.
   */
  datatype AddressStore = AddressStore(rows: seq<Attrs>, failing: set<string>)

  /** The filter `customerId = :cid` with `:cid` the string `id`. */
  predicate Owned(row: Attrs, id: string)
  {
    "customerId" in row && row["customerId"] == Str(id)
  }

  /**
   * The rows a `customerId = :cid` filter-scan keeps: those owned by `id`,
   * each as often as it occurs in the table, and nothing else.
   */
  function AddressesOf(rows: seq<Attrs>, id: string): (r: seq<Attrs>)
    ensures |r| <= |rows|
    ensures forall x :: x in r ==> Owned(x, id)
    ensures forall x :: Owned(x, id) ==> multiset(r)[x] == multiset(rows)[x]
  {
    if rows == [] then []
    else
      assert rows == [rows[0]] + rows[1..];
      (if Owned(rows[0], id) then [rows[0]] else []) + AddressesOf(rows[1..], id)
  }

  /** The filter keeps scan order: filtering a concatenation filters each part. */
  lemma {:induction false} AddressesOfConcat(a: seq<Attrs>, b: seq<Attrs>, id: string)
    ensures AddressesOf(a + b, id) == AddressesOf(a, id) + AddressesOf(b, id)
  {
    if a == [] {
      assert a + b == b;
    } else {
      assert (a + b)[0] == a[0] && (a + b)[1..] == a[1..] + b;
      AddressesOfConcat(a[1..], b, id);
    }
  }

  /** One filter-scan of the addresses table for customer `id`. */
  function ScanAddresses(store: AddressStore, id: string): (r: Outcome<seq<Attrs>>)
    ensures r.Failed? <==> id in store.failing
    ensures r.Ok? ==> r.value == AddressesOf(store.rows, id)
  {
    if id in store.failing then Failed else Ok(AddressesOf(store.rows, id))
  }
}
