/**
 * `PUT /customers/{customerId}`: validates `name`, `age` and `mobileNumber`
 * in the body and sets exactly those three attributes on the customer item.
 */
module UpdateHandler {
  import opened Values
  import opened Store
  import opened Http

  const NameDefect := "name"
  const AgeDefect := "age (must be a number)"
  const MobileDefect := "mobileNumber"

  /** `v && typeof v === 'string'`. */
  predicate NonEmptyString(v: Option<Value>)
  {
    v.Some? && v.value.Str? && v.value.s != ""
  }

  /** `v && typeof v === 'number'`: zero is rejected as falsy. */
  predicate NonZeroNumber(v: Option<Value>)
  {
    v.Some? && v.value.Num? && v.value.n != 0
  }

  /** Whether the defect for each field applies to `body` (not `null`). */
  predicate NameBad(body: Value) { !NonEmptyString(Member(body, "name")) }
  predicate AgeBad(body: Value) { !NonZeroNumber(Member(body, "age")) }
  predicate MobileBad(body: Value) { !NonEmptyString(Member(body, "mobileNumber")) }

  predicate ValidCustomer(body: Value)
  {
    !NameBad(body) && !AgeBad(body) && !MobileBad(body)
  }

  /** The position of a defect in the fixed checking order; 3 for anything else. */
  function Rank(d: string): nat
  {
    if d == NameDefect then 0 else if d == AgeDefect then 1 else if d == MobileDefect then 2 else 3
  }

  /**
   * `missing` is the defect list of `body`: it holds the defect of a field
   * exactly when that field fails its check, nothing else, and in checking
   * order name, age, mobileNumber.
   */
  predicate DefectList(body: Value, missing: seq<string>)
  {
    && (NameDefect in missing <==> NameBad(body))
    && (AgeDefect in missing <==> AgeBad(body))
    && (MobileDefect in missing <==> MobileBad(body))
    && InCheckingOrder(missing)
  }

  /**
   * `validateCustomer`: pushes one defect per failing field, in order. Reading
   * a property of a `null` body throws.
   */
  method ValidateCustomer(body: Value) returns (missing: Outcome<seq<string>>)
    ensures missing.Failed? <==> body.Null?
    ensures missing.Ok? ==> DefectList(body, missing.value) && |missing.value| <= 3
    ensures missing.Ok? ==> (missing.value == [] <==> ValidCustomer(body))
  {
    if body.Null? {
      return Failed;
    }
    var m: seq<string> := [];
    if NameBad(body) {
      m := m + [NameDefect];
    }
    if AgeBad(body) {
      m := m + [AgeDefect];
    }
    if MobileBad(body) {
      m := m + [MobileDefect];
    }
    missing := Ok(m);
  }

  /** A defect list has at most one entry per field, so at most three. */
  lemma {:induction false} DefectListBounded(body: Value, missing: seq<string>)
    requires DefectList(body, missing)
    ensures |missing| <= 3
  {
    if |missing| > 0 {
      RankAtLeastIndex(body, missing, |missing| - 1);
    }
  }

  lemma {:induction false} RankAtLeastIndex(body: Value, missing: seq<string>, k: nat)
    requires DefectList(body, missing) && k < |missing|
    ensures Rank(missing[k]) >= k
  {
    if k > 0 {
      RankAtLeastIndex(body, missing, k - 1);
    }
  }

  /** Entries drawn from the three defects, strictly in checking order. */
  predicate InCheckingOrder(m: seq<string>)
  {
    && (forall i :: 0 <= i < |m| ==> Rank(m[i]) < 3)
    && (forall i, j :: 0 <= i < j < |m| ==> Rank(m[i]) < Rank(m[j]))
  }

  lemma {:induction false} OrderedListsWithSameEntriesAreEqual(m1: seq<string>, m2: seq<string>)
    requires InCheckingOrder(m1) && InCheckingOrder(m2)
    requires forall d :: d in m1 <==> d in m2
    ensures m1 == m2
  {
    if m1 != [] || m2 != [] {
      // whichever list is non-empty shares its head with the other
      assert (m1 != [] ==> m1[0] in m1) && (m2 != [] ==> m2[0] in m2);
      assert m1[0] in m2 && m2[0] in m1;
      var j1 :| 0 <= j1 < |m1| && m1[j1] == m2[0];
      var j2 :| 0 <= j2 < |m2| && m2[j2] == m1[0];
      assert Rank(m1[0]) <= Rank(m1[j1]);
      assert Rank(m2[0]) <= Rank(m2[j2]);
      forall d
        ensures d in m1[1..] <==> d in m2[1..]
      {
        if d in m1[1..] {
          var k :| 1 <= k < |m1| && m1[k] == d;
          assert Rank(m1[0]) < Rank(d);
          assert d in m2;
          var l :| 0 <= l < |m2| && m2[l] == d;
          assert l != 0;
          assert m2[l] == m2[1..][l - 1];
        }
        if d in m2[1..] {
          var k :| 1 <= k < |m2| && m2[k] == d;
          assert Rank(m2[0]) < Rank(d);
          assert d in m1;
          var l :| 0 <= l < |m1| && m1[l] == d;
          assert l != 0;
          assert m1[l] == m1[1..][l - 1];
        }
      }
      OrderedListsWithSameEntriesAreEqual(m1[1..], m2[1..]);
      assert m1 == [m1[0]] + m1[1..] && m2 == [m2[0]] + m2[1..];
    }
  }

  /** A body has one defect list: the characterisation fixes every entry and its place. */
  lemma DefectListUnique(body: Value, m1: seq<string>, m2: seq<string>)
    requires DefectList(body, m1) && DefectList(body, m2)
    ensures m1 == m2
  {
    forall d
      ensures d in m1 <==> d in m2
    {
      if d in m1 {
        var k :| 0 <= k < |m1| && m1[k] == d;
        assert Rank(d) < 3;
      }
      if d in m2 {
        var k :| 0 <= k < |m2| && m2[k] == d;
        assert Rank(d) < 3;
      }
    }
    OrderedListsWithSameEntriesAreEqual(m1, m2);
  }

  /** The three attributes the `SET` expression assigns, with the body's values. */
  function NewFields(body: Value): (fields: Attrs)
    requires ValidCustomer(body)
    ensures fields.Keys == {"name", "age", "mobileNumber"}
    ensures "customerId" !in fields
    ensures fields["age"].Num? && fields["age"].n != 0
    ensures fields["name"].Str? && fields["mobileNumber"].Str?
    ensures forall k :: k in fields ==> Member(body, k) == Some(fields[k])
  {
    map["name" := Member(body, "name").value,
        "age" := Member(body, "age").value,
        "mobileNumber" := Member(body, "mobileNumber").value]
  }

  /**
   * The handler: 400 without a path id or with defects, 500 on a malformed or
   * `null` body or a store error, and otherwise 200 after setting exactly the
   * three attributes on the item keyed by the path id.
   */
  method HandleUpdate(customers: Table, pathId: Option<string>, body: RequestBody, storeFails: bool)
    returns (resp: Response)
    requires customers.Valid()
    modifies customers
    ensures customers.Valid()
    ensures resp.statusCode in {200, 400, 500}
    ensures resp.statusCode != 200 ==> customers.items == old(customers.items)
    ensures !PresentParam(pathId) ==> resp == MissingPathId
    ensures PresentParam(pathId) && (ParseBody(body).Failed? || ParseBody(body).value.Null?) ==>
              resp == InternalServerError
    ensures PresentParam(pathId) && ParseBody(body).Ok? && !ParseBody(body).value.Null? ==>
              var b := ParseBody(body).value;
              && (!ValidCustomer(b) ==>
                    && resp.statusCode == 400 && resp.body.ValidationFailed?
                    && resp.body.message == "Validation failed for customer"
                    && DefectList(b, resp.body.missingFields) && resp.body.missingFields != [])
              && (ValidCustomer(b) && storeFails ==> resp == InternalServerError)
              && (ValidCustomer(b) && !storeFails ==>
                    && resp == Response(200, Updated("Customer updated successfully", pathId.value,
                                                     WireAttrs(NewFields(b))))
                    && customers.items.Keys == old(customers.items).Keys + {pathId.value}
                    && (pathId.value in old(customers.items) ==>
                          customers.items[pathId.value] == old(customers.items)[pathId.value] + NewFields(b))
                    && pathId.value in customers.items
                    && (forall a :: a in NewFields(b) ==>
                          a in customers.items[pathId.value] && customers.items[pathId.value][a] == NewFields(b)[a])
                    && resp.body.updatedFields.Keys == NewFields(b).Keys
                    && (forall a :: a in NewFields(b) ==>
                          Unwire(resp.body.updatedFields[a]) == Some(customers.items[pathId.value][a]))
                    && (forall id :: id in old(customers.items) && id != pathId.value ==>
                          customers.items[id] == old(customers.items)[id]))
  {
    if !PresentParam(pathId) {
      return MissingPathId;
    }
    var parsed := ParseBody(body);
    if parsed.Failed? {
      return InternalServerError;
    }
    var missingFields := ValidateCustomer(parsed.value);
    if missingFields.Failed? {
      return InternalServerError;
    }
    if |missingFields.value| > 0 {
      return Response(400, ValidationFailed("Validation failed for customer", missingFields.value));
    }
    var fields := NewFields(parsed.value);
    var result := customers.Set(pathId.value, fields, storeFails);
    if result.Failed? {
      return InternalServerError;
    }
    resp := Response(200, Updated("Customer updated successfully", pathId.value, result.value));
  }
}
