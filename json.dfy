/**
 * The JSON document tree the filters edit (Jackson's `JsonNode`), and the two node kinds the
 * filters mutate in place: `ObjectNode` (an insertion-ordered map) and `ArrayNode`.
 */
module Json {
  import opened JavaLang

  datatype Json =
    | JNull
    | JBool(b: bool)
    | JInt(i: int)          // an integral number (IntNode, LongNode, BigIntegerNode)
    | JDecimal(text: string) // any other number, kept as its text
    | JString(s: string)
    | JArray(elems: seq<Json>)
    | JObject(members: seq<Member>)

  /** One `name: value` entry of an object, in document order. */
  datatype Member = Member(key: string, value: Json)

  function Keys(m: seq<Member>): (ks: seq<string>)
    ensures |ks| == |m|
    ensures forall i :: 0 <= i < |m| ==> ks[i] == m[i].key
  {
    if m == [] then [] else [m[0].key] + Keys(m[1..])
  }

  /** An object node never holds the same name twice (it is a map). */
  predicate UniqueKeys(m: seq<Member>)
  {
    forall i, j :: 0 <= i < j < |m| ==> m[i].key != m[j].key
  }

  /** `ObjectNode.get(key)`. */
  function Lookup(m: seq<Member>, key: string): Option<Json>
  {
    if m == [] then None
    else if m[0].key == key then Some(m[0].value)
    else Lookup(m[1..], key)
  }

  /** The members other than `key`, in order. */
  function Without(m: seq<Member>, key: string): seq<Member>
  {
    if m == [] then []
    else if m[0].key == key then Without(m[1..], key)
    else [m[0]] + Without(m[1..], key)
  }

  /**
   * `ObjectNode.put` / `ObjectNode.set` (a `LinkedHashMap.put`): a present name keeps its
   * position and gets the new value; an absent name is appended at the end.
   */
  function SetMember(m: seq<Member>, key: string, value: Json): seq<Member>
  {
    if m == [] then [Member(key, value)]
    else if m[0].key == key then [Member(key, value)] + m[1..]
    else [m[0]] + SetMember(m[1..], key, value)
  }

  /** Setting an absent name appends it after every existing member. */
  lemma {:induction false} SetMemberAbsent(m: seq<Member>, key: string, value: Json)
    requires key !in Keys(m)
    ensures SetMember(m, key, value) == m + [Member(key, value)]
  {
    if m != [] {
      assert Keys(m) == [m[0].key] + Keys(m[1..]);
      SetMemberAbsent(m[1..], key, value);
    }
  }

  /** Setting a present name replaces its value in place; every other member stays where it was. */
  lemma {:induction false} SetMemberPresent(m: seq<Member>, key: string, value: Json)
    requires UniqueKeys(m) && key in Keys(m)
    ensures |SetMember(m, key, value)| == |m|
    ensures forall i :: 0 <= i < |m| ==>
      SetMember(m, key, value)[i] == (if m[i].key == key then Member(key, value) else m[i])
  {
    assert m != [];
    var r := SetMember(m, key, value);
    if m[0].key == key {
      forall i | 1 <= i < |m| ensures m[i].key != key {
        assert m[0].key != m[i].key;
      }
    } else {
      assert Keys(m) == [m[0].key] + Keys(m[1..]);
      SetMemberPresent(m[1..], key, value);
      assert r == [m[0]] + SetMember(m[1..], key, value);
    }
  }

  /** After setting, looking the name up gives the new value and every other name is unaffected. */
  lemma {:induction false} SetMemberLookup(m: seq<Member>, key: string, value: Json, other: string)
    ensures Lookup(SetMember(m, key, value), key) == Some(value)
    ensures other != key ==> Lookup(SetMember(m, key, value), other) == Lookup(m, other)
  {
    if m != [] && m[0].key != key {
      SetMemberLookup(m[1..], key, value, other);
    }
  }

  /** Setting keeps the names unique. */
  lemma {:induction false} SetMemberUnique(m: seq<Member>, key: string, value: Json)
    requires UniqueKeys(m)
    ensures UniqueKeys(SetMember(m, key, value))
  {
    if key in Keys(m) {
      SetMemberPresent(m, key, value);
    } else {
      SetMemberAbsent(m, key, value);
      var r := m + [Member(key, value)];
      forall i, j | 0 <= i < j < |r| ensures r[i].key != r[j].key {
        if j == |m| {
          assert Keys(m)[i] == m[i].key;
        }
      }
    }
  }

  /** Setting one name leaves the rest of the object, and its order, exactly as it was. */
  lemma {:induction false} SetMemberKeepsOthers(m: seq<Member>, key: string, value: Json)
    ensures Without(SetMember(m, key, value), key) == Without(m, key)
  {
    if m != [] {
      if m[0].key == key {
        assert SetMember(m, key, value) == [Member(key, value)] + m[1..];
        assert ([Member(key, value)] + m[1..])[1..] == m[1..];
      } else {
        SetMemberKeepsOthers(m[1..], key, value);
        assert ([m[0]] + SetMember(m[1..], key, value))[1..] == SetMember(m[1..], key, value);
      }
    }
  }

  /** Setting a name twice is the same as setting it once to the second value. */
  lemma {:induction false} SetMemberOverwrite(m: seq<Member>, key: string, v1: Json, v2: Json)
    ensures SetMember(SetMember(m, key, v1), key, v2) == SetMember(m, key, v2)
  {
    if m == [] {
      assert SetMember([Member(key, v1)], key, v2) == [Member(key, v2)] + [Member(key, v1)][1..];
    } else if m[0].key == key {
      var once := [Member(key, v1)] + m[1..];
      assert once[1..] == m[1..];
    } else {
      SetMemberOverwrite(m[1..], key, v1, v2);
      var once := [m[0]] + SetMember(m[1..], key, v1);
      assert once[1..] == SetMember(m[1..], key, v1);
    }
  }

  /** A Jackson `ObjectNode`: an object whose members `put`/`set` change in place. */
  class ObjectNode {
    var members: seq<Member>

    /** `objectMapper.createObjectNode()`, or the node `readTree` produced for `m`. */
    constructor (m: seq<Member>)
      ensures members == m
    {
      members := m;
    }

    /** `put(key, value)` / `set(key, value)`. */
    method Put(key: string, value: Json)
      modifies this
      ensures members == SetMember(old(members), key, value)
    {
      members := SetMember(members, key, value);
    }

    /** The node as a document tree. */
    function Tree(): Json
      reads this
    {
      JObject(members)
    }
  }

  /** A Jackson `ArrayNode`: an array that `add` extends in place. */
  class ArrayNode {
    var elems: seq<Json>

    /** `objectMapper.createArrayNode()`. */
    constructor ()
      ensures elems == []
    {
      elems := [];
    }

    /** `add(value)`. */
    method Add(value: Json)
      modifies this
      ensures elems == old(elems) + [value]
    {
      elems := elems + [value];
    }

    /** The node as a document tree. */
    function Tree(): Json
      reads this
    {
      JArray(elems)
    }
  }
}
