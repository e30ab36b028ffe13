/** How `to_json` and `from_json` of `serde_json/json.hpp` fit together: decoding what was
    encoded gives back every `Field` member, at every depth, while bare members come back at
    their value in `T{}`, since they are never written. */
module RoundTrip {
  import opened Wrappers
  import opened JsonTree
  import opened Schema
  import opened Encode
  import opened Decode

  /** What a value keeps through JSON: `Field` members (recursively) and container elements
      are kept, and every bare member is reset to its value in `T{}`. */
  function Scrub(s: Schema, v: Value): (r: Value)
    requires Conforms(s, v)
    ensures WellFormed(s) ==> Conforms(s, r)
    decreases s
  {
    if IsLeaf(s) then v
    else if IsContainer(s) then
      VSeq(seq(|v.items|, i requires 0 <= i < |v.items| => Scrub(s.elem, v.items[i])))
    else
      var ms := s.members;
      VRec(seq(|ms|, i requires 0 <= i < |ms| =>
        if IsField(ms[i]) then Scrub(ms[i].ty, v.fields[i]) else MemberDefault(ms[i])))
  }

  /** Every bare member reachable through `Field` members and container elements holds its
      value in `T{}`. */
  predicate BareAtDefault(s: Schema, v: Value)
    requires Conforms(s, v)
    decreases s
  {
    if IsLeaf(s) then true
    else if IsContainer(s) then
      forall i :: 0 <= i < |v.items| ==> BareAtDefault(s.elem, v.items[i])
    else
      forall i :: 0 <= i < |s.members| ==>
        if IsField(s.members[i]) then BareAtDefault(s.members[i].ty, v.fields[i])
        else v.fields[i] == MemberDefault(s.members[i])
  }

  /** `Scrub` changes nothing exactly when the bare members already hold their defaults. */
  lemma {:induction false} ScrubIsIdentity(s: Schema, v: Value)
    requires Conforms(s, v)
    ensures Scrub(s, v) == v <==> BareAtDefault(s, v)
    decreases s
  {
    if IsLeaf(s) {
    } else if IsContainer(s) {
      forall i | 0 <= i < |v.items| {
        ScrubIsIdentity(s.elem, v.items[i]);
      }
      if BareAtDefault(s, v) {
        assert Scrub(s, v).items == v.items;
      } else if Scrub(s, v) == v {
        forall i | 0 <= i < |v.items| ensures BareAtDefault(s.elem, v.items[i]) {
          assert Scrub(s, v).items[i] == v.items[i];
        }
      }
    } else {
      var ms := s.members;
      forall i | 0 <= i < |ms| && IsField(ms[i]) {
        ScrubIsIdentity(ms[i].ty, v.fields[i]);
      }
      if BareAtDefault(s, v) {
        assert Scrub(s, v).fields == v.fields;
      } else if Scrub(s, v) == v {
        forall i | 0 <= i < |ms|
          ensures if IsField(ms[i]) then BareAtDefault(ms[i].ty, v.fields[i]) else v.fields[i] == MemberDefault(ms[i])
        {
          assert Scrub(s, v).fields[i] == v.fields[i];
        }
      }
    }
  }

  /** Decoding what was stored for a value gives back its `Scrub`: a leaf itself, each
      element of a container, and each `Field` member of a record. */
  lemma {:induction false} EmbeddedRoundTrip(s: Schema, v: Value)
    requires Decodable(s) && DistinctTags(s) && Conforms(s, v)
    ensures FromJson(s, EmbeddedJson(s, v)) == Ok(Scrub(s, v))
    decreases s, 1
  {
    if IsLeaf(s) {
    } else if IsDynamicContainer(s) {
      ContainerRoundTrip(s, v);
    } else {
      RecordRoundTrip(s, v);
    }
  }

  /** The container case: each element comes back from its own entry. */
  lemma {:induction false} ContainerRoundTrip(s: Schema, v: Value)
    requires IsDynamicContainer(s) && Decodable(s) && DistinctTags(s) && Conforms(s, v)
    ensures FromJson(s, ToJson(s, v)) == Ok(Scrub(s, v))
    decreases s, 0
  {
    var j := ToJson(s, v);
    ContainerToJson(s, v);
    DecodeContainer(s, j);
    if |v.items| == 0 {
      assert Scrub(s, v) == VSeq([]);
    } else {
      forall i | 0 <= i < |v.items|
        ensures FromJson(s.elem, j.items[i]) == Ok(Scrub(s.elem, v.items[i]))
      {
        assert j.items[i] == EmbeddedJson(s.elem, v.items[i]);
        EmbeddedRoundTrip(s.elem, v.items[i]);
      }
      assert FromJson(s, j).value.items == Scrub(s, v).items;
    }
  }

  /** The record case: each `Field` member comes back from the key with its tag, and the
      bare members come back at their defaults. */
  lemma {:induction false} RecordRoundTrip(s: Schema, v: Value)
    requires s.TRecord? && Decodable(s) && DistinctTags(s) && Conforms(s, v)
    ensures FromJson(s, ToJson(s, v)) == Ok(Scrub(s, v))
    decreases s, 0
  {
    var ms := s.members;
    forall i | 0 <= i < |ms| && IsField(ms[i])
      ensures FromJson(ms[i].ty, EmbeddedJson(ms[i].ty, v.fields[i])) == Ok(Scrub(ms[i].ty, v.fields[i]))
    {
      EmbeddedRoundTrip(ms[i].ty, v.fields[i]);
    }
    FieldsRoundTrip(s, v);
  }

  /** The record case, given that each `Field` member's own encoding decodes back. */
  lemma FieldsRoundTrip(s: Schema, v: Value)
    requires s.TRecord? && Decodable(s) && DistinctTags(s) && Conforms(s, v)
    requires forall i :: 0 <= i < |s.members| && IsField(s.members[i]) ==>
      FromJson(s.members[i].ty, EmbeddedJson(s.members[i].ty, v.fields[i])) == Ok(Scrub(s.members[i].ty, v.fields[i]))
    ensures FromJson(s, ToJson(s, v)) == Ok(Scrub(s, v))
  {
    var ms := s.members;
    var j := ToJson(s, v);
    RecordToJson(s, v);
    if !HasField(ms, |ms|) {
      RecordWithoutFieldsDecodesToDefault(s, j);
      assert Scrub(s, v).fields == DefaultFields(s);
    } else {
      RecordToJsonDistinct(s, v);
      DecodeRecord(s, j);
      assert FromJson(s, j).value.fields == Scrub(s, v).fields;
    }
  }

  /** `from_json(to_json(r))` for a record or a dynamic container with distinct tags gives
      back every `Field` member at every depth; bare members come back at their defaults. */
  lemma RoundTrip(s: Schema, v: Value)
    requires (s.TRecord? || IsDynamicContainer(s)) && Decodable(s) && DistinctTags(s) && Conforms(s, v)
    ensures FromJson(s, ToJson(s, v)) == Ok(Scrub(s, v))
  {
    EmbeddedRoundTrip(s, v);
  }

  /** When the bare members already hold their defaults the round trip is exact. */
  lemma ExactRoundTrip(s: Schema, v: Value)
    requires (s.TRecord? || IsDynamicContainer(s)) && Decodable(s) && DistinctTags(s) && Conforms(s, v)
    requires BareAtDefault(s, v)
    ensures FromJson(s, ToJson(s, v)) == Ok(v)
  {
    RoundTrip(s, v);
    ScrubIsIdentity(s, v);
  }

  /** The null policies agree with decoding: an empty container is stored as null and null
      decodes to an empty container; a record without `Field` members is stored as null and
      null decodes to its default. */
  lemma NullPoliciesRoundTrip(s: Schema, v: Value)
    requires Conforms(s, v)
    ensures IsDynamicContainer(s) && Decodable(s) && |v.items| == 0 ==>
      ToJson(s, v) == JNull && FromJson(s, JNull) == Ok(v)
    ensures s.TRecord? && !HasField(s.members, |s.members|) ==>
      ToJson(s, v) == JNull && Decodable(s) && FromJson(s, JNull) == Ok(Default(s))
  {
    if s.TRecord? && !HasField(s.members, |s.members|) {
      RecordToJson(s, v);
      RecordWithoutFieldsDecodesToDefault(s, JNull);
    }
  }

  /** Two `Field<int, "x">` members. */
  function TwoX(): Schema {
    TRecord([Tagged("x", TInt, None), Tagged("x", TInt, None)])
  }

  /** The second `j["x"] = ...` overwrites the first. */
  lemma TwoXEncode()
    ensures Conforms(TwoX(), VRec([VInt(1), VInt(2)]))
    ensures ToJson(TwoX(), VRec([VInt(1), VInt(2)])) == JObj(map["x" := JNum(2)])
  {
    var s := TwoX();
    var fs := [VInt(1), VInt(2)];
    assert RecordJson(s, fs, 1) == JObj(map["x" := JNum(1)]);
  }

  /** Both members read the same key. */
  lemma TwoXDecode()
    ensures Decodable(TwoX())
    ensures FromJson(TwoX(), JObj(map["x" := JNum(2)])) == Ok(VRec([VInt(2), VInt(2)]))
  {
    var s := TwoX();
    var j := JObj(map["x" := JNum(2)]);
    assert DefaultFields(s) == [VInt(0), VInt(0)];
    assert MemberFrom(s.members[0], j) == Ok(VInt(2));
    assert MemberFrom(s.members[1], j) == Ok(VInt(2));
    assert [VInt(0), VInt(0)][0 := VInt(2)] == [VInt(2), VInt(0)];
    assert FieldsFrom(s, j, 1) == Ok([VInt(2), VInt(0)]);
    assert [VInt(2), VInt(0)][1 := VInt(2)] == [VInt(2), VInt(2)];
    assert FieldsFrom(s, j, 2) == Ok([VInt(2), VInt(2)]);
  }

  /** Why the round trip needs distinct tags: with two `Field<int, "x">` members holding 1
      and 2, `to_json` keeps only the later value, and both members decode to 2. */
  lemma DuplicateTagsLoseEarlierField()
    ensures var v := VRec([VInt(1), VInt(2)]);
      Conforms(TwoX(), v) && Decodable(TwoX()) &&
      ToJson(TwoX(), v) == JObj(map["x" := JNum(2)]) &&
      FromJson(TwoX(), ToJson(TwoX(), v)) == Ok(VRec([VInt(2), VInt(2)])) &&
      FromJson(TwoX(), ToJson(TwoX(), v)) != Ok(Scrub(TwoX(), v))
  {
    TwoXEncode();
    TwoXDecode();
    assert Scrub(TwoX(), VRec([VInt(1), VInt(2)])) == VRec([VInt(1), VInt(2)]);
  }
}
