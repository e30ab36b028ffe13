/** `to_json` of `serde_json/json.hpp`: a value of a static type becomes a JSON tree.
    `ToJson` is the specification, one case per overload; `Serialize` and its two helpers
    follow the loops of the source and are proved to compute `ToJson`. */
module Encode {
  import opened JsonTree
  import opened Schema

  /** `nlohmann::json`'s own conversion of an `int`, a `bool` or a `std::string`. */
  function LeafJson(s: Schema, v: Value): (r: Json)
    requires IsLeaf(s) && Conforms(s, v)
    ensures s.TInt? ==> r == JNum(v.i)
    ensures s.TBool? ==> r == JBool(v.b)
    ensures s.TString? ==> r == JStr(v.s)
  {
    if s.TInt? then JNum(v.i) else if s.TBool? then JBool(v.b) else JStr(v.s)
  }

  /** `to_json(t)`. A bare scalar goes to the generic overload, which finds no `Field` in it,
      and a bare `std::string` to its specialisation: both give null. A container goes to the
      container overload and a record to the generic overload. */
  function ToJson(s: Schema, v: Value): (r: Json)
    requires Conforms(s, v)
    ensures r.JNull? || r.JArr? || r.JObj?
    ensures r.JArr? ==> IsContainer(s)
    ensures r.JObj? ==> s.TRecord?
    decreases s, 1, 0
  {
    if IsLeaf(s) then JNull
    else if IsContainer(s) then ContainerJson(s, v.items)
    else RecordJson(s, v.fields, |s.members|)
  }

  /** How a value reached inside a `Field` or a container is stored: a class other than
      `std::string` through `to_json`, anything else directly as a leaf. */
  function EmbeddedJson(s: Schema, v: Value): (r: Json)
    requires Conforms(s, v)
    ensures IsLeaf(s) <==> r.JNum? || r.JBool? || r.JStr?
    decreases s, 2, 0
  {
    if IsClassNotString(s) then ToJson(s, v) else LeafJson(s, v)
  }

  /** The container overload: one array entry per element, in order, and null (the value
      `j` starts with) when there is no element. */
  function ContainerJson(s: Schema, items: seq<Value>): (r: Json)
    requires IsContainer(s)
    requires forall i :: 0 <= i < |items| ==> Conforms(s.elem, items[i])
    ensures r.JNull? || r.JArr?
    ensures r.JNull? <==> |items| == 0
    ensures r.JArr? ==> |r.items| == |items|
    decreases s, 0, 0
  {
    if |items| == 0 then JNull
    else JArr(seq(|items|, i requires 0 <= i < |items| => EmbeddedJson(s.elem, items[i])))
  }

  /** The generic overload on a record, after its first `k` members: starting from null,
      each `Field` member does `j[tag] = ...`, and bare members are skipped. */
  function RecordJson(s: Schema, fields: seq<Value>, k: nat): (r: Json)
    requires s.TRecord? && |fields| == |s.members| && k <= |fields|
    requires forall i :: 0 <= i < |fields| ==> Conforms(s.members[i].ty, fields[i])
    ensures r.JNull? || r.JObj?
    ensures r.JNull? <==> !HasField(s.members, k)
    decreases s, 0, k
  {
    if k == 0 then JNull
    else
      var acc := RecordJson(s, fields, k - 1);
      var m := s.members[k - 1];
      if IsField(m) then Put(acc, m.tag, EmbeddedJson(m.ty, fields[k - 1])) else acc
  }

  // ---------------------------------------------------------------------------
  // The overloads as the source writes them

  /** `to_json(t)`, dispatching to the overload for `t`'s type. */
  method Serialize(s: Schema, v: Value) returns (j: Json)
    requires Conforms(s, v)
    ensures j == ToJson(s, v)
    decreases s, 1
  {
    if IsLeaf(s) {
      j := JNull;
    } else if IsContainer(s) {
      j := SerializeContainer(s, v.items);
    } else {
      j := SerializeRecord(s, v.fields);
    }
  }

  /** The container overload: `for (item : t) j.push_back(...)`. */
  method SerializeContainer(s: Schema, items: seq<Value>) returns (j: Json)
    requires IsContainer(s)
    requires forall i :: 0 <= i < |items| ==> Conforms(s.elem, items[i])
    ensures j == ContainerJson(s, items)
    decreases s, 0
  {
    j := JNull;
    var i := 0;
    while i < |items|
      invariant 0 <= i <= |items|
      invariant i == 0 ==> j == JNull
      invariant i > 0 ==> j.JArr? && |j.items| == i
      invariant forall k :: 0 <= k < i ==> j.items[k] == EmbeddedJson(s.elem, items[k])
    {
      var x;
      if IsClassNotString(s.elem) {
        x := Serialize(s.elem, items[i]);
      } else {
        x := LeafJson(s.elem, items[i]);
      }
      assert x == EmbeddedJson(s.elem, items[i]);
      j := PushBack(j, x);
      i := i + 1;
    }
    if i > 0 {
      ContainerJsonOfEntries(s, items, j);
    }
  }

  /** An array holding the embedded encoding of each element, in order, is the container
      encoding. */
  lemma ContainerJsonOfEntries(s: Schema, items: seq<Value>, j: Json)
    requires IsContainer(s)
    requires forall i :: 0 <= i < |items| ==> Conforms(s.elem, items[i])
    requires |items| > 0 && j.JArr? && |j.items| == |items|
    requires forall k :: 0 <= k < |items| ==> j.items[k] == EmbeddedJson(s.elem, items[k])
    ensures j == ContainerJson(s, items)
  {
    assert j.items == seq(|items|, k requires 0 <= k < |items| => EmbeddedJson(s.elem, items[k]));
  }

  /** The generic overload on a record: `for_each_field`, with `j[tag] = ...` per `Field`. */
  method SerializeRecord(s: Schema, fields: seq<Value>) returns (j: Json)
    requires s.TRecord? && |fields| == |s.members|
    requires forall i :: 0 <= i < |fields| ==> Conforms(s.members[i].ty, fields[i])
    ensures j == RecordJson(s, fields, |fields|)
    decreases s, 0
  {
    j := JNull;
    var i := 0;
    while i < |fields|
      invariant 0 <= i <= |fields|
      invariant j == RecordJson(s, fields, i)
    {
      var m := s.members[i];
      if IsField(m) {
        var x;
        if IsClassNotString(m.ty) {
          x := Serialize(m.ty, fields[i]);
        } else {
          x := LeafJson(m.ty, fields[i]);
        }
        j := Put(j, m.tag, x);
      }
      i := i + 1;
    }
  }

  // ---------------------------------------------------------------------------
  // Properties of `to_json`

  /** A bare `int`, `bool` or `std::string` passed to `to_json` gives null. */
  lemma LeafToJsonIsNull(s: Schema, v: Value)
    requires IsLeaf(s) && Conforms(s, v)
    ensures ToJson(s, v) == JNull
  {
  }

  /** After `k` members, the key of a `Field` whose tag no later member reuses holds that
      member's encoding: a later `j[tag] = ...` with another tag leaves it alone. */
  lemma {:induction false} RecordJsonValueAt(s: Schema, fields: seq<Value>, k: nat, i: nat)
    requires s.TRecord? && |fields| == |s.members| && i < k <= |fields|
    requires forall n :: 0 <= n < |fields| ==> Conforms(s.members[n].ty, fields[n])
    requires LastWithTag(s.members, k, i)
    ensures RecordJson(s, fields, k).JObj?
    ensures s.members[i].tag in RecordJson(s, fields, k).fields
    ensures RecordJson(s, fields, k).fields[s.members[i].tag] == EmbeddedJson(s.members[i].ty, fields[i])
  {
    var ms := s.members;
    if i < k - 1 {
      assert LastWithTag(ms, k - 1, i);
      RecordJsonValueAt(s, fields, k - 1, i);
      if IsField(ms[k - 1]) {
        assert ms[k - 1].tag != ms[i].tag;
      }
    }
  }

  /** After `k` members the object's key set is exactly the tags of the `Field` members met. */
  lemma {:induction false} RecordJsonKeys(s: Schema, fields: seq<Value>, k: nat)
    requires s.TRecord? && |fields| == |s.members| && k <= |fields|
    requires forall i :: 0 <= i < |fields| ==> Conforms(s.members[i].ty, fields[i])
    ensures RecordJson(s, fields, k).JObj? ==> RecordJson(s, fields, k).fields.Keys == Tags(s.members, k)
  {
    if k > 0 {
      var ms := s.members;
      RecordJsonKeys(s, fields, k - 1);
      var prev := RecordJson(s, fields, k - 1);
      if IsField(ms[k - 1]) {
        assert Tags(ms, k) == Tags(ms, k - 1) + {ms[k - 1].tag};
        if prev.JNull? {
          assert Tags(ms, k - 1) == {} by {
            assert !HasField(ms, k - 1);
          }
        }
      } else {
        assert Tags(ms, k) == Tags(ms, k - 1);
      }
    }
  }

  /** Every key of a record's object, at once. */
  lemma RecordJsonValues(s: Schema, fields: seq<Value>)
    requires s.TRecord? && |fields| == |s.members|
    requires forall n :: 0 <= n < |fields| ==> Conforms(s.members[n].ty, fields[n])
    ensures forall i :: 0 <= i < |fields| && LastWithTag(s.members, |fields|, i) ==>
      RecordJson(s, fields, |fields|).JObj? && s.members[i].tag in RecordJson(s, fields, |fields|).fields &&
      RecordJson(s, fields, |fields|).fields[s.members[i].tag] == EmbeddedJson(s.members[i].ty, fields[i])
  {
    forall i | 0 <= i < |fields| && LastWithTag(s.members, |fields|, i)
      ensures RecordJson(s, fields, |fields|).JObj? && s.members[i].tag in RecordJson(s, fields, |fields|).fields
      ensures RecordJson(s, fields, |fields|).fields[s.members[i].tag] == EmbeddedJson(s.members[i].ty, fields[i])
    {
      RecordJsonValueAt(s, fields, |fields|, i);
    }
  }

  /** `to_json` of a record is null when no member is a `Field`; otherwise it is an object
      whose keys are exactly the `Field` tags, so bare members never appear. The key of a
      `Field` (the last one when tags repeat) is present even when its value encodes to null,
      and holds `to_json` of the value for a class other than `std::string`, the leaf
      itself for an `int`, a `bool` or a `std::string`. */
  lemma RecordToJson(s: Schema, v: Value)
    requires s.TRecord? && Conforms(s, v)
    ensures ToJson(s, v) == JNull <==> !HasField(s.members, |s.members|)
    ensures HasField(s.members, |s.members|) ==>
      ToJson(s, v).JObj? && ToJson(s, v).fields.Keys == Tags(s.members, |s.members|)
    ensures forall i :: 0 <= i < |s.members| && LastWithTag(s.members, |s.members|, i) ==>
      ToJson(s, v).JObj? && s.members[i].tag in ToJson(s, v).fields &&
      ToJson(s, v).fields[s.members[i].tag] ==
        if IsClassNotString(s.members[i].ty) then ToJson(s.members[i].ty, v.fields[i])
        else LeafJson(s.members[i].ty, v.fields[i])
  {
    RecordJsonValues(s, v.fields);
    RecordJsonKeys(s, v.fields, |s.members|);
  }

  /** With distinct tags every `Field` member's encoding is found under its own tag. */
  lemma RecordToJsonDistinct(s: Schema, v: Value)
    requires s.TRecord? && Conforms(s, v) && DistinctTags(s)
    ensures forall i :: 0 <= i < |s.members| && IsField(s.members[i]) ==>
      ToJson(s, v).JObj? && s.members[i].tag in ToJson(s, v).fields &&
      ToJson(s, v).fields[s.members[i].tag] == EmbeddedJson(s.members[i].ty, v.fields[i])
  {
    var ms := s.members;
    forall i | 0 <= i < |ms| && IsField(ms[i])
      ensures LastWithTag(ms, |ms|, i)
    {
    }
    RecordJsonValues(s, v.fields);
  }

  /** `to_json` of a container has one entry per element, in order: a record or container
      element through `to_json`, a leaf element (a string included) directly. An empty
      container gives null, not an empty array. */
  lemma ContainerToJson(s: Schema, v: Value)
    requires IsContainer(s) && Conforms(s, v)
    ensures ToJson(s, v) == JNull <==> |v.items| == 0
    ensures |v.items| > 0 ==> ToJson(s, v).JArr? && |ToJson(s, v).items| == |v.items|
    ensures |v.items| > 0 ==> forall i :: 0 <= i < |v.items| ==>
      ToJson(s, v).items[i] ==
        if IsClassNotString(s.elem) then ToJson(s.elem, v.items[i]) else LeafJson(s.elem, v.items[i])
  {
    if |v.items| > 0 {
      assert ToJson(s, v) == ContainerJson(s, v.items);
      forall i | 0 <= i < |v.items|
        ensures ToJson(s, v).items[i] == EmbeddedJson(s.elem, v.items[i])
      {
      }
    }
  }

  /** Bare members do not take part: two member lists that agree on every `Field` member
      encode alike. */
  lemma {:induction false} RecordJsonIgnoresBareMembers(s: Schema, f1: seq<Value>, f2: seq<Value>, k: nat)
    requires s.TRecord? && |f1| == |s.members| && |f2| == |s.members| && k <= |s.members|
    requires forall i :: 0 <= i < |s.members| ==> Conforms(s.members[i].ty, f1[i])
    requires forall i :: 0 <= i < |s.members| ==> Conforms(s.members[i].ty, f2[i])
    requires forall i :: 0 <= i < |s.members| && IsField(s.members[i]) ==> f1[i] == f2[i]
    ensures RecordJson(s, f1, k) == RecordJson(s, f2, k)
  {
    if k > 0 {
      RecordJsonIgnoresBareMembers(s, f1, f2, k - 1);
      if IsField(s.members[k - 1]) {
        assert f1[k - 1] == f2[k - 1];
      }
    }
  }

  /** `to_json` of a record does not depend on its bare members. */
  lemma ToJsonIgnoresBareMembers(s: Schema, v1: Value, v2: Value)
    requires s.TRecord? && Conforms(s, v1) && Conforms(s, v2)
    requires forall i :: 0 <= i < |s.members| && IsField(s.members[i]) ==> v1.fields[i] == v2.fields[i]
    ensures ToJson(s, v1) == ToJson(s, v2)
  {
    RecordJsonIgnoresBareMembers(s, v1.fields, v2.fields, |s.members|);
  }
}
