/**
 * `clean_schema`: a tool's JSON schema rebuilt without the keys the model
 * API does not accept. A dictionary loses its `additionalProperties` and
 * `$schema` entries, dictionary values are cleaned in turn, list values are
 * cleaned element by element, and anything else is returned as it is.
 */
module Schema {
  import opened Strings

  /** A JSON-like Python value; a dictionary keeps its entries in insertion
      order. */
  datatype Json =
    | JNull
    | JBool(b: bool)
    | JNum(n: int)
    | JStr(s: string)
    | JList(items: seq<Json>)
    | JDict(members: seq<Member>)

  datatype Member = Member(key: string, value: Json)

  /** The keys `clean_schema` drops. */
  predicate Banned(key: string)
  {
    key == "additionalProperties" || key == "$schema"
  }

  function Keys(ms: seq<Member>): (ks: seq<string>)
    ensures |ks| == |ms| && forall i :: 0 <= i < |ms| ==> ks[i] == ms[i].key
  {
    seq(|ms|, i requires 0 <= i < |ms| => ms[i].key)
  }

  /** A dictionary lists each key once. */
  predicate UniqueKeys(ms: seq<Member>)
  {
    forall i, j :: 0 <= i < j < |ms| ==> ms[i].key != ms[j].key
  }

  /** `d.get(key)`: the value of the entry with that key. */
  function Get(ms: seq<Member>, key: string): Option<Json>
  {
    if ms == [] then None
    else if ms[0].key == key then Some(ms[0].value)
    else Get(ms[1..], key)
  }

  /** `clean_schema(schema)`. */
  function CleanSchema(schema: Json): (r: Json)
    ensures !schema.JDict? ==> r == schema
    ensures schema.JDict? ==> r.JDict?
    decreases schema, 0
  {
    match schema
    case JDict(members) => JDict(CleanMembers(members))
    case _ => schema
  }

  /** The loop over `schema.items()`: banned keys are skipped, every other
      entry is copied with its value cleaned. */
  function CleanMembers(ms: seq<Member>): (r: seq<Member>)
    ensures |r| <= |ms|
    ensures forall i :: 0 <= i < |r| ==> !Banned(r[i].key)
    decreases ms, 2
  {
    if ms == [] then []
    else
      var rest := CleanMembers(ms[1..]);
      if Banned(ms[0].key) then rest
      else [Member(ms[0].key, CleanValue(ms[0].value))] + rest
  }

  /** One value of the dictionary: a dictionary is cleaned, a list has each
      element passed to `clean_schema`, anything else is copied. */
  function CleanValue(v: Json): (r: Json)
    decreases v, 1
  {
    match v
    case JDict(_) => CleanSchema(v)
    case JList(items) => JList(seq(|items|, i requires 0 <= i < |items| => CleanSchema(items[i])))
    case _ => v
  }

  /** Cleaning keeps the order of the entries: it works entry by entry. */
  lemma {:induction false} CleanMembersConcat(a: seq<Member>, b: seq<Member>)
    ensures CleanMembers(a + b) == CleanMembers(a) + CleanMembers(b)
    decreases |a|
  {
    if a == [] {
      assert a + b == b;
    } else {
      var ab := a + b;
      assert ab[0] == a[0];
      assert ab[1..] == a[1..] + b;
      CleanMembersConcat(a[1..], b);
      var head := if Banned(a[0].key) then [] else [Member(a[0].key, CleanValue(a[0].value))];
      var ra, rb := CleanMembers(a[1..]), CleanMembers(b);
      calc {
        CleanMembers(ab);
        head + CleanMembers(a[1..] + b);
        head + (ra + rb);
        { assert head + (ra + rb) == (head + ra) + rb; }
        (head + ra) + rb;
        CleanMembers(a) + rb;
      }
    }
  }

  /** A key survives cleaning exactly when the input has it and it is not
      banned. */
  lemma {:induction false} CleanMembersKeys(ms: seq<Member>)
    ensures forall k :: k in Keys(CleanMembers(ms)) <==> k in Keys(ms) && !Banned(k)
  {
    if ms != [] {
      var rest := CleanMembers(ms[1..]);
      CleanMembersKeys(ms[1..]);
      assert Keys(ms) == [ms[0].key] + Keys(ms[1..]);
      if !Banned(ms[0].key) {
        assert Keys(CleanMembers(ms)) == [ms[0].key] + Keys(rest);
      }
    }
  }

  /** Looking a key up in the cleaned dictionary: a banned key is absent,
      any other key has the cleaned value of the original entry, or is
      absent if the original has none; the keys stay unique. */
  lemma {:induction false} CleanMembersGet(ms: seq<Member>, key: string)
    requires UniqueKeys(ms)
    ensures UniqueKeys(CleanMembers(ms))
    ensures Get(CleanMembers(ms), key) ==
      if Banned(key) then None
      else match Get(ms, key)
        case None => None
        case Some(v) => Some(CleanValue(v))
  {
    if ms != [] {
      var rest := CleanMembers(ms[1..]);
      assert UniqueKeys(ms[1..]);
      CleanMembersGet(ms[1..], key);
      CleanMembersKeys(ms[1..]);
      if !Banned(ms[0].key) {
        assert ms[0].key !in Keys(ms[1..]);
        assert ms[0].key !in Keys(rest);
        var r := CleanMembers(ms);
        assert r[1..] == rest;
        forall i, j | 0 <= i < j < |r| ensures r[i].key != r[j].key {
          if i == 0 {
            assert r[j].key == Keys(rest)[j - 1];
          }
        }
      } else {
        assert Get(ms, key) == if key == ms[0].key then Some(ms[0].value) else Get(ms[1..], key);
        if key != ms[0].key {
          assert Get(CleanMembers(ms), key) == Get(rest, key);
        }
      }
    }
  }

  /** A list keeps its length, and each element is passed to
      `clean_schema` on its own: a dictionary element is cleaned, a list
      element (a list nested in a list) is kept as it is. */
  lemma ListValue(items: seq<Json>, i: int)
    requires 0 <= i < |items|
    ensures CleanValue(JList(items)).JList?
    ensures |CleanValue(JList(items)).items| == |items|
    ensures items[i].JDict? ==> CleanValue(JList(items)).items[i] == CleanSchema(items[i])
    ensures !items[i].JDict? ==> CleanValue(JList(items)).items[i] == items[i]
  {
  }

  /** A list nested in a list is not descended into: banned keys inside it
      survive. */
  lemma NestedListKept()
    ensures var inner := JDict([Member("$schema", JStr("x"))]);
      var schema := JDict([Member("anyOf", JList([JList([inner])]))]);
      CleanSchema(schema) == schema
  {
    var inner := JDict([Member("$schema", JStr("x"))]);
    var items := [JList([inner])];
    assert CleanValue(JList(items)) == JList(items);
  }

  /** The removal is recursive: a banned key inside a nested dictionary or
      inside a dictionary in a list is removed. */
  lemma NestedBannedRemoved()
    ensures var props := JDict([Member("additionalProperties", JBool(false)), Member("type", JStr("object"))]);
      var schema := JDict([Member("$schema", JStr("x")), Member("properties", props), Member("oneOf", JList([props]))]);
      var clean := JDict([Member("type", JStr("object"))]);
      CleanSchema(schema) == JDict([Member("properties", clean), Member("oneOf", JList([clean]))])
  {
    var props := JDict([Member("additionalProperties", JBool(false)), Member("type", JStr("object"))]);
    var clean := JDict([Member("type", JStr("object"))]);
    assert CleanMembers([Member("type", JStr("object"))]) == [Member("type", JStr("object"))];
    assert CleanSchema(props) == clean;
    assert CleanValue(JList([props])) == JList([clean]);
    var oneOf := [Member("oneOf", JList([props]))];
    assert CleanMembers(oneOf) == [Member("oneOf", JList([clean]))];
    var tail := [Member("properties", props)] + oneOf;
    assert tail[1..] == oneOf;
    assert CleanMembers(tail) == [Member("properties", clean), Member("oneOf", JList([clean]))];
    var ms := [Member("$schema", JStr("x"))] + tail;
    assert ms[1..] == tail;
    assert CleanMembers(ms) == CleanMembers(tail);
    assert ms == [Member("$schema", JStr("x")), Member("properties", props), Member("oneOf", JList([props]))];
  }

  /** A value `clean_schema` leaves alone: no banned key in any dictionary
      it reaches, through dictionary values and the elements of their
      lists. */
  predicate IsClean(j: Json)
    decreases j, 0
  {
    match j
    case JDict(ms) => forall i :: 0 <= i < |ms| ==> !Banned(ms[i].key) && ValueIsClean(ms[i].value)
    case _ => true
  }

  predicate ValueIsClean(v: Json)
    decreases v, 1
  {
    match v
    case JDict(_) => IsClean(v)
    case JList(items) => forall i :: 0 <= i < |items| ==> IsClean(items[i])
    case _ => true
  }

  /** The output of `clean_schema` is clean. */
  lemma {:induction false} CleanSchemaIsClean(j: Json)
    ensures IsClean(CleanSchema(j))
    decreases j, 0
  {
    if j.JDict? {
      CleanMembersAreClean(j.members);
      var r := CleanMembers(j.members);
      assert CleanSchema(j) == JDict(r);
      forall i | 0 <= i < |r| ensures !Banned(r[i].key) && ValueIsClean(r[i].value) {
        assert r[i] in r;
      }
    }
  }

  lemma {:induction false} CleanMembersAreClean(ms: seq<Member>)
    ensures forall m :: m in CleanMembers(ms) ==> ValueIsClean(m.value)
    decreases ms, 2
  {
    if ms != [] {
      CleanMembersAreClean(ms[1..]);
      CleanValueIsClean(ms[0].value);
      var r, rest := CleanMembers(ms), CleanMembers(ms[1..]);
      if !Banned(ms[0].key) {
        assert r == [Member(ms[0].key, CleanValue(ms[0].value))] + rest;
        assert forall m :: m in r ==> m == r[0] || m in rest;
      }
    }
  }

  lemma {:induction false} CleanValueIsClean(v: Json)
    ensures ValueIsClean(CleanValue(v))
    decreases v, 1
  {
    match v
    case JDict(_) => CleanSchemaIsClean(v);
    case JList(items) =>
      forall i | 0 <= i < |items| ensures IsClean(CleanValue(v).items[i]) {
        CleanSchemaIsClean(items[i]);
      }
    case _ =>
  }

  /** A clean value is returned unchanged. */
  lemma {:induction false} CleanSchemaKeepsClean(j: Json)
    requires IsClean(j)
    ensures CleanSchema(j) == j
    decreases j, 0
  {
    if j.JDict? {
      CleanMembersKeepClean(j.members);
    }
  }

  lemma {:induction false} CleanMembersKeepClean(ms: seq<Member>)
    requires forall i :: 0 <= i < |ms| ==> !Banned(ms[i].key) && ValueIsClean(ms[i].value)
    ensures CleanMembers(ms) == ms
    decreases ms, 2
  {
    if ms != [] {
      CleanMembersKeepClean(ms[1..]);
      CleanValueKeepsClean(ms[0].value);
    }
  }

  lemma {:induction false} CleanValueKeepsClean(v: Json)
    requires ValueIsClean(v)
    ensures CleanValue(v) == v
    decreases v, 1
  {
    match v
    case JDict(_) => CleanSchemaKeepsClean(v);
    case JList(items) =>
      forall i | 0 <= i < |items| ensures CleanSchema(items[i]) == items[i] {
        CleanSchemaKeepsClean(items[i]);
      }
    case _ =>
  }

  /** `clean_schema` leaves exactly the clean values unchanged. */
  lemma CleanSchemaFixpoints(j: Json)
    ensures CleanSchema(j) == j <==> IsClean(j)
  {
    if IsClean(j) {
      CleanSchemaKeepsClean(j);
    }
    CleanSchemaIsClean(j);
  }

  /** Cleaning twice is cleaning once. */
  lemma CleanSchemaIdempotent(j: Json)
    ensures CleanSchema(CleanSchema(j)) == CleanSchema(j)
  {
    CleanSchemaIsClean(j);
    CleanSchemaKeepsClean(CleanSchema(j));
  }
}
