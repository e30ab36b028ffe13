/** Concrete instances of the codec, on the records the repository's own tests use. */
module Scenarios {
  import opened Wrappers
  import opened JsonTree
  import opened Schema
  import opened Encode
  import opened Decode

  /** `struct Inner { int i; }`: no `Field` member. */
  function Inner(): Schema {
    TRecord([Plain(TInt, None)])
  }

  /** `struct A { int i; bool b; Inner inner; }`: no member is a `Field`. */
  function A(): Schema {
    TRecord([Plain(TInt, None), Plain(TBool, None), Plain(Inner(), None)])
  }

  /** `to_json(A{})` is null: a record without fields contributes no key. */
  lemma EncodeA(v: Value)
    requires Conforms(A(), v)
    ensures ToJson(A(), v) == JNull
  {
    var ms := A().members;
    assert !IsField(ms[0]) && !IsField(ms[1]) && !IsField(ms[2]);
  }

  /** `from_json<A>("null")` is `A{}`: `i == 0`, `b == false` and `inner.i == 0`, whatever
      the input holds. */
  lemma DecodeA(j: Json)
    ensures Decodable(A())
    ensures FromJson(A(), j) == Ok(VRec([VInt(0), VBool(false), VRec([VInt(0)])]))
  {
    var ms := A().members;
    assert !IsField(ms[0]) && !IsField(ms[1]) && !IsField(ms[2]);
    RecordWithoutFieldsDecodesToDefault(A(), j);
    var d := DefaultFields(A());
    assert d[2] == Default(Inner()) && DefaultFields(Inner()) == [VInt(0)];
    assert d == [VInt(0), VBool(false), VRec([VInt(0)])];
  }

  /** `struct B { Field<int, "i"> i; bool b; Field<Inner, "inner"> inner = Inner{.i = 10}; }` */
  function B(): Schema {
    TRecord([Tagged("i", TInt, None), Plain(TBool, None), Tagged("inner", Inner(), Some(VRec([VInt(10)])))])
  }

  /** The members of `B{}`: `i` and `b` are value-initialised and `inner` takes its
      initialiser. */
  function DefaultB(): seq<Value> {
    [VInt(0), VBool(false), VRec([VInt(10)])]
  }

  lemma DefaultOfB()
    ensures Default(B()) == VRec(DefaultB())
    ensures Conforms(B(), VRec(DefaultB()))
  {
    var ms := B().members;
    assert MemberDefault(ms[0]) == VInt(0);
    assert MemberDefault(ms[1]) == VBool(false);
    assert MemberDefault(ms[2]) == VRec([VInt(10)]);
    assert Conforms(Inner(), VRec([VInt(10)])) by {
      assert Conforms(TInt, VInt(10));
    }
  }

  /** A record without fields encodes to null. */
  lemma EncodeInner(v: Value)
    requires Conforms(Inner(), v)
    ensures ToJson(Inner(), v) == JNull
  {
    assert !IsField(Inner().members[0]);
  }

  /** `to_json(B{})`: the `Field<Inner>` member is stored as `to_json` of a record without
      fields, so its key is present with a null value. */
  lemma EncodeDefaultB()
    ensures Conforms(B(), Default(B()))
    ensures ToJson(B(), Default(B())) == JObj(map["i" := JNum(0), "inner" := JNull])
  {
    var s := B();
    var fs := DefaultB();
    DefaultOfB();
    EncodeInner(fs[2]);
    assert RecordJson(s, fs, 1) == JObj(map["i" := JNum(0)]);
    assert RecordJson(s, fs, 3) == JObj(map["i" := JNum(0), "inner" := JNull]);
  }

  /** A record without fields decodes from any input to its `T{}`. */
  lemma DecodeInner(j: Json)
    ensures Decodable(Inner()) && FromJson(Inner(), j) == Ok(VRec([VInt(0)]))
  {
    assert !IsField(Inner().members[0]);
    RecordWithoutFieldsDecodesToDefault(Inner(), j);
    assert DefaultFields(Inner()) == [VInt(0)];
  }

  /** The input `{"i":10,"inner":null}` of the `B` decoding test. */
  function InputB(): Json {
    JObj(map["i" := JNum(10), "inner" := JNull])
  }

  /** The two `Field` members of `B` read from that input: `i` is 10, and `inner` is
      `Inner{}` rebuilt from null. */
  lemma DecodeMembersOfB()
    ensures Decodable(B())
    ensures MemberFrom(B().members[0], InputB()) == Ok(VInt(10))
    ensures MemberFrom(B().members[2], InputB()) == Ok(VRec([VInt(0)]))
  {
    var ms := B().members;
    DecodeInner(JNull);
    MemberFromCases(ms[0], InputB());
    MemberFromCases(ms[2], InputB());
  }

  /** `from_json<B>("{\"i\":10,\"inner\":null}")`: `inner` is rebuilt from the type's own
      default `Inner{}`, so its value is 0, not the member initialiser's 10. */
  lemma DecodeB()
    ensures Decodable(B())
    ensures FromJson(B(), InputB()) == Ok(VRec([VInt(10), VBool(false), VRec([VInt(0)])]))
  {
    var s := B();
    var j := InputB();
    DefaultOfB();
    DecodeMembersOfB();
    var t1 := DefaultB()[0 := VInt(10)];
    FieldsFromNext(s, j, 0);
    assert FieldsFrom(s, j, 1) == Ok(t1);
    FieldsFromNext(s, j, 1);
    FieldsFromNext(s, j, 2);
    assert FieldsFrom(s, j, 3) == Ok(t1[2 := VRec([VInt(0)])]);
    assert t1[2 := VRec([VInt(0)])] == [VInt(10), VBool(false), VRec([VInt(0)])];
  }

  /** `to_json(std::vector{1, 2, 3})` is `[1,2,3]` and `to_json(std::vector<int>{})` is null;
      `from_json<std::vector<int>>("null")` is empty. */
  lemma IntVectors()
    ensures ToJson(TVec(TInt), VSeq([VInt(1), VInt(2), VInt(3)])) == JArr([JNum(1), JNum(2), JNum(3)])
    ensures ToJson(TVec(TInt), VSeq([])) == JNull
    ensures FromJson(TVec(TInt), JNull) == Ok(VSeq([]))
    ensures FromJson(TVec(TInt), JArr([JNum(1), JNum(2)])) == Ok(VSeq([VInt(1), VInt(2)]))
  {
    var items := [VInt(1), VInt(2), VInt(3)];
    ContainerToJson(TVec(TInt), VSeq(items));
    var j := JArr([JNum(1), JNum(2)]);
    DecodeContainer(TVec(TInt), JNull);
    DecodeContainer(TVec(TInt), j);
    assert FromJson(TInt, j.items[0]) == Ok(VInt(1));
    assert FromJson(TInt, j.items[1]) == Ok(VInt(2));
    var r := FromJson(TVec(TInt), j).value.items;
    assert FromJson(TVec(TInt), j).Ok? && |r| == 2;
    assert r[0] == VInt(1) && r[1] == VInt(2);
    assert r == [VInt(1), VInt(2)];
  }

  /** `from_json<A>` for a record with a `Field<int, "ii">` fails when the key is missing or
      holds a string. */
  lemma DecodeFailures()
    ensures var a := TRecord([Tagged("ii", TInt, None), Plain(TBool, None)]);
      && Decodable(a)
      && FromJson(a, JObj(map["i" := JNum(1)])) == Err(MissingKey("ii"))
      && FromJson(a, JObj(map["ii" := JStr("1")])) == Err(WrongKind)
      && FromJson(a, JArr([])) == Err(NotAnObject)
  {
    var a := TRecord([Tagged("ii", TInt, None), Plain(TBool, None)]);
    assert FieldsFrom(a, JObj(map["i" := JNum(1)]), 1) == Err(MissingKey("ii"));
    assert FieldsFrom(a, JObj(map["ii" := JStr("1")]), 1) == Err(WrongKind);
    assert FieldsFrom(a, JArr([]), 1) == Err(NotAnObject);
  }
}
