/** `impl::from_json` and the two top-level `from_json(std::string_view)` overloads of
    `serde_json/json.hpp`: a JSON tree becomes a value of a static type, or the exception
    `nlohmann::json` raises. `FromJson` is the specification; `Deserialize` and its two
    helpers follow the loops of the source and are proved to compute `FromJson`. */
module Decode {
  import opened Wrappers
  import opened JsonTree
  import opened Schema

  /** The exceptions raised on the decoder's paths. */
  datatype Error =
    | NotAnObject               // `at(key)` on a value that is not an object
    | MissingKey(key: string)   // `at(key)` on an object without that key
    | WrongKind                 // `get_to` on a JSON value of another kind than the target
    | ParseError                // `json::parse` on text that is not JSON

  /** `j.at(key)`. */
  function At(j: Json, key: string): (r: Result<Json, Error>)
    ensures r.Ok? <==> j.JObj? && key in j.fields
    ensures r.Ok? ==> r.value == j.fields[key]
    ensures !j.JObj? ==> r == Err(NotAnObject)
    ensures j.JObj? && key !in j.fields ==> r == Err(MissingKey(key))
  {
    if !j.JObj? then Err(NotAnObject)
    else if key !in j.fields then Err(MissingKey(key))
    else Ok(j.fields[key])
  }

  /** `j.get_to(t)` for an `int`, a `bool` or a `std::string`: the JSON value must be of the
      matching kind. */
  function GetTo(s: Schema, j: Json): (r: Result<Value, Error>)
    requires IsLeaf(s)
    ensures r.Ok? <==> (s.TInt? && j.JNum?) || (s.TBool? && j.JBool?) || (s.TString? && j.JStr?)
    ensures r.Ok? ==> Conforms(s, r.value)
    ensures r.Err? ==> r.error == WrongKind
  {
    if s.TInt? then (if j.JNum? then Ok(VInt(j.n)) else Err(WrongKind))
    else if s.TBool? then (if j.JBool? then Ok(VBool(j.b)) else Err(WrongKind))
    else (if j.JStr? then Ok(VStr(j.str)) else Err(WrongKind))
  }

  /** `impl::from_json<T>(j)`, one case per overload: the leaf overload for a directly
      convertible type, the dynamic-container overload (a non-array gives an empty
      container), and the aggregate overload for a record. */
  function FromJson(s: Schema, j: Json): (r: Result<Value, Error>)
    requires Decodable(s)
    ensures r.Err? ==> r.error != ParseError
    ensures IsDynamicContainer(s) && r.Err? ==> j.JArr?
    ensures IsDynamicContainer(s) && r.Ok? ==> r.value.VSeq? && (j.JArr? ==> |r.value.items| == |j.items|)
    decreases s, 2, 0
  {
    if IsLeaf(s) then GetTo(s, j)
    else if IsDynamicContainer(s) then
      if !j.JArr? then Ok(VSeq([]))
      else
        var xs :- ItemsFrom(s, j.items, |j.items|);
        Ok(VSeq(xs))
    else
      var fs :- FieldsFrom(s, j, |s.members|);
      Ok(VRec(fs))
  }

  /** The dynamic-container loop after `k` items: `t.push_back(impl::from_json<...>(item))`,
      where the first item that throws ends the call. */
  function ItemsFrom(s: Schema, items: seq<Json>, k: nat): (r: Result<seq<Value>, Error>)
    requires IsDynamicContainer(s) && Decodable(s) && k <= |items|
    ensures r.Ok? ==> |r.value| == k
    ensures r.Err? ==> r.error != ParseError
    decreases s, 1, k
  {
    if k == 0 then Ok([])
    else
      var xs :- ItemsFrom(s, items, k - 1);
      var x :- FromJson(s.elem, items[k - 1]);
      Ok(xs + [x])
  }

  /** The aggregate loop after `k` members: it starts from `T t{}` and overwrites each `Field`
      member in declaration order, leaving bare members alone; the first member that throws
      ends the call. */
  function FieldsFrom(s: Schema, j: Json, k: nat): (r: Result<seq<Value>, Error>)
    requires s.TRecord? && Decodable(s) && k <= |s.members|
    ensures r.Ok? ==> |r.value| == |s.members|
    ensures r.Err? ==> r.error != ParseError
    decreases s, 1, k
  {
    if k == 0 then Ok(DefaultFields(s))
    else
      var t :- FieldsFrom(s, j, k - 1);
      var m := s.members[k - 1];
      if !IsField(m) then Ok(t)
      else
        var x :- MemberFrom(m, j);
        Ok(t[k - 1 := x])
  }

  /** One `Field` member: `impl::from_json<Type>(j.at(tag))` for a class other than
      `std::string`, `j.at(tag).get_to(field.value)` otherwise. Both read `j.at(tag)` and
      convert it as `impl::from_json` of the member's type would. */
  function MemberFrom(m: Member, j: Json): (r: Result<Value, Error>)
    requires IsField(m) && Decodable(m.ty)
    ensures r.Ok? ==> j.JObj? && m.tag in j.fields
    ensures r.Err? ==> r.error != ParseError
    decreases m, 3, 0
  {
    var sub :- At(j, m.tag);
    FromJson(m.ty, sub)
  }

  /** `from_json<T>(json_str)` for a record or a dynamic container: the text is parsed by
      `parse` (the JSON library's parser), and a parse error ends the call. */
  function FromText(s: Schema, text: string, parse: string -> Option<Json>): (r: Result<Value, Error>)
    requires s.TRecord? || IsDynamicContainer(s)
    requires Decodable(s)
    ensures parse(text).None? ==> r == Err(ParseError)
    ensures parse(text).Some? ==> r == FromJson(s, parse(text).value)
  {
    match parse(text)
    case None => Err(ParseError)
    case Some(j) => FromJson(s, j)
  }

  // ---------------------------------------------------------------------------
  // The overloads as the source writes them

  /** `impl::from_json<T>(j)`, dispatching to the overload for `T`. */
  method Deserialize(s: Schema, j: Json) returns (r: Result<Value, Error>)
    requires Decodable(s)
    ensures r == FromJson(s, j)
    decreases s, 1
  {
    if IsLeaf(s) {
      r := GetTo(s, j);
    } else if IsDynamicContainer(s) {
      r := DeserializeContainer(s, j);
    } else {
      r := DeserializeRecord(s, j);
    }
  }

  /** The dynamic-container overload. */
  method DeserializeContainer(s: Schema, j: Json) returns (r: Result<Value, Error>)
    requires IsDynamicContainer(s) && Decodable(s)
    ensures r == FromJson(s, j)
    decreases s, 0
  {
    if !j.JArr? {
      return Ok(VSeq([]));
    }
    var t := [];
    var i := 0;
    while i < |j.items|
      invariant 0 <= i <= |j.items|
      invariant ItemsFrom(s, j.items, i) == Ok(t)
    {
      var x := Deserialize(s.elem, j.items[i]);
      if x.Err? {
        ItemsFromErrorSticks(s, j.items, i + 1, |j.items|);
        return Err(x.error);
      }
      t := t + [x.value];
      i := i + 1;
    }
    return Ok(VSeq(t));
  }

  /** The aggregate overload: `T t{}` and then `for_each_field` over its members. */
  method DeserializeRecord(s: Schema, j: Json) returns (r: Result<Value, Error>)
    requires s.TRecord? && Decodable(s)
    ensures r == FromJson(s, j)
    decreases s, 0
  {
    var ms := s.members;
    var t := DefaultFields(s);
    var i := 0;
    while i < |ms|
      invariant 0 <= i <= |ms|
      invariant FieldsFrom(s, j, i) == Ok(t)
    {
      var m := ms[i];
      FieldsFromNext(s, j, i);
      if IsField(m) {
        var x := DeserializeMember(m, j);
        if x.Err? {
          FieldsFromErrorSticks(s, j, i + 1, |ms|);
          return Err(x.error);
        }
        t := t[i := x.value];
      }
      i := i + 1;
    }
    return Ok(VRec(t));
  }

  /** The body `for_each_field` runs on a `Field` member: `impl::from_json<Type>(j.at(tag))`
      for a class other than `std::string`, `j.at(tag).get_to(field.value)` otherwise. */
  method DeserializeMember(m: Member, j: Json) returns (x: Result<Value, Error>)
    requires IsField(m) && Decodable(m.ty)
    ensures x == MemberFrom(m, j)
    decreases m, 0
  {
    var sub := At(j, m.tag);
    if sub.Err? {
      return Err(sub.error);
    }
    if IsClassNotString(m.ty) {
      x := Deserialize(m.ty, sub.value);
    } else {
      x := GetTo(m.ty, sub.value);
    }
  }

  /** One more member of the aggregate loop, after a prefix that succeeded: a bare member
      changes nothing, and a `Field` member either throws or overwrites its own slot. */
  lemma FieldsFromNext(s: Schema, j: Json, k: nat)
    requires s.TRecord? && Decodable(s) && k < |s.members| && FieldsFrom(s, j, k).Ok?
    ensures !IsField(s.members[k]) ==> FieldsFrom(s, j, k + 1) == FieldsFrom(s, j, k)
    ensures IsField(s.members[k]) && MemberFrom(s.members[k], j).Err? ==>
      FieldsFrom(s, j, k + 1) == Err(MemberFrom(s.members[k], j).error)
    ensures IsField(s.members[k]) && MemberFrom(s.members[k], j).Ok? ==>
      FieldsFrom(s, j, k + 1) == Ok(FieldsFrom(s, j, k).value[k := MemberFrom(s.members[k], j).value])
  {
  }

  /** Once an item has thrown, the container loop's outcome is that exception. */
  lemma {:induction false} ItemsFromErrorSticks(s: Schema, items: seq<Json>, k: nat, n: nat)
    requires IsDynamicContainer(s) && Decodable(s) && k <= n <= |items|
    requires ItemsFrom(s, items, k).Err?
    ensures ItemsFrom(s, items, n) == ItemsFrom(s, items, k)
    decreases n
  {
    if n > k {
      ItemsFromErrorSticks(s, items, k, n - 1);
    }
  }

  /** Once a member has thrown, the aggregate loop's outcome is that exception. */
  lemma {:induction false} FieldsFromErrorSticks(s: Schema, j: Json, k: nat, n: nat)
    requires s.TRecord? && Decodable(s) && k <= n <= |s.members|
    requires FieldsFrom(s, j, k).Err?
    ensures FieldsFrom(s, j, n) == FieldsFrom(s, j, k)
    decreases n
  {
    if n > k {
      FieldsFromErrorSticks(s, j, k, n - 1);
    }
  }

  // ---------------------------------------------------------------------------
  // Properties of `from_json`

  /** Item `i` is the first item of a dynamic container's array that fails to decode. */
  predicate FirstFailingItem(s: Schema, items: seq<Json>, i: nat)
    requires IsDynamicContainer(s) && Decodable(s) && i < |items|
  {
    FromJson(s.elem, items[i]).Err? && forall n :: 0 <= n < i ==> FromJson(s.elem, items[n]).Ok?
  }

  /** Member `i` is the first `Field` member whose decoding throws. */
  predicate FirstFailingMember(s: Schema, j: Json, i: nat)
    requires s.TRecord? && Decodable(s) && i < |s.members|
  {
    IsField(s.members[i]) && MemberFrom(s.members[i], j).Err?
    && forall n :: 0 <= n < i && IsField(s.members[n]) ==> MemberFrom(s.members[n], j).Ok?
  }

  /** After `k` items the loop has succeeded exactly when each of those items decodes, and
      then holds their values in order; otherwise it holds the first item's exception. */
  lemma {:induction false} ItemsFromAt(s: Schema, items: seq<Json>, k: nat)
    requires IsDynamicContainer(s) && Decodable(s) && k <= |items|
    ensures ItemsFrom(s, items, k).Ok? <==> forall i :: 0 <= i < k ==> FromJson(s.elem, items[i]).Ok?
    ensures ItemsFrom(s, items, k).Ok? ==>
      forall i :: 0 <= i < k ==> ItemsFrom(s, items, k).value[i] == FromJson(s.elem, items[i]).value
    ensures ItemsFrom(s, items, k).Err? ==>
      exists i :: 0 <= i < k && FirstFailingItem(s, items, i) &&
        ItemsFrom(s, items, k).error == FromJson(s.elem, items[i]).error
    decreases k
  {
    if k > 0 {
      ItemsFromAt(s, items, k - 1);
      var prev := ItemsFrom(s, items, k - 1);
      if prev.Ok? {
        var x := FromJson(s.elem, items[k - 1]);
        if x.Err? {
          assert FirstFailingItem(s, items, k - 1);
        } else {
          assert ItemsFrom(s, items, k) == Ok(prev.value + [x.value]);
        }
      }
    }
  }

  /** After `k` members the loop has succeeded exactly when each of their `Field` members
      decodes; then those members hold their decoded values and every other member its
      value in `T{}`. Otherwise it holds the first failing member's exception. */
  lemma {:induction false} FieldsFromAt(s: Schema, j: Json, k: nat)
    requires s.TRecord? && Decodable(s) && k <= |s.members|
    ensures FieldsFrom(s, j, k).Ok? <==>
      forall i :: 0 <= i < k && IsField(s.members[i]) ==> MemberFrom(s.members[i], j).Ok?
    ensures FieldsFrom(s, j, k).Ok? ==>
      forall i :: 0 <= i < |s.members| ==>
        FieldsFrom(s, j, k).value[i] ==
          if i < k && IsField(s.members[i]) then MemberFrom(s.members[i], j).value
          else MemberDefault(s.members[i])
    ensures FieldsFrom(s, j, k).Err? ==>
      exists i :: 0 <= i < k && FirstFailingMember(s, j, i) &&
        FieldsFrom(s, j, k).error == MemberFrom(s.members[i], j).error
    decreases k
  {
    if k > 0 {
      FieldsFromAt(s, j, k - 1);
      var ms := s.members;
      var prev := FieldsFrom(s, j, k - 1);
      if prev.Err? || !IsField(ms[k - 1]) {
        assert FieldsFrom(s, j, k) == prev;
      } else {
        var x := MemberFrom(ms[k - 1], j);
        if x.Err? {
          assert FirstFailingMember(s, j, k - 1);
          assert FieldsFrom(s, j, k) == Err(x.error);
        } else {
          assert FieldsFrom(s, j, k) == Ok(prev.value[k - 1 := x.value]);
        }
      }
    }
  }

  /** `MemberFrom` reads `j.at(tag)` and converts it. */
  lemma MemberFromCases(m: Member, j: Json)
    requires IsField(m) && Decodable(m.ty)
    ensures !j.JObj? ==> MemberFrom(m, j) == Err(NotAnObject)
    ensures j.JObj? && m.tag !in j.fields ==> MemberFrom(m, j) == Err(MissingKey(m.tag))
    ensures j.JObj? && m.tag in j.fields ==> MemberFrom(m, j) == FromJson(m.ty, j.fields[m.tag])
  {
  }

  /** Decoding a dynamic container: anything but an array gives an empty container; an array
      of n items gives n elements, element i decoded from item i, when every item decodes,
      and otherwise the exception of the first item that does not. */
  lemma DecodeContainer(s: Schema, j: Json)
    requires IsDynamicContainer(s) && Decodable(s)
    ensures !j.JArr? ==> FromJson(s, j) == Ok(VSeq([]))
    ensures j.JArr? ==>
      (FromJson(s, j).Ok? <==> forall i :: 0 <= i < |j.items| ==> FromJson(s.elem, j.items[i]).Ok?)
    ensures j.JArr? && FromJson(s, j).Ok? ==>
      FromJson(s, j).value.VSeq? && |FromJson(s, j).value.items| == |j.items| &&
      forall i :: 0 <= i < |j.items| ==> FromJson(s, j).value.items[i] == FromJson(s.elem, j.items[i]).value
    ensures j.JArr? && FromJson(s, j).Err? ==>
      exists i :: 0 <= i < |j.items| && FirstFailingItem(s, j.items, i) &&
        FromJson(s, j).error == FromJson(s.elem, j.items[i]).error
  {
    if j.JArr? {
      ItemsFromAt(s, j.items, |j.items|);
    }
  }

  /** Decoding a record starts from `T{}` and writes only its `Field` members: it succeeds
      exactly when the input is an object holding every tag, each with a value that decodes
      to the member's type. Then every `Field` member holds the value decoded from its key,
      every bare member keeps its value in `T{}`, and keys matching no tag play no part.
      Otherwise the result is the exception of the first `Field` member that fails. */
  lemma DecodeRecord(s: Schema, j: Json)
    requires s.TRecord? && Decodable(s)
    ensures FromJson(s, j).Ok? <==>
      forall i :: 0 <= i < |s.members| && IsField(s.members[i]) ==>
        j.JObj? && s.members[i].tag in j.fields &&
        FromJson(s.members[i].ty, j.fields[s.members[i].tag]).Ok?
    ensures FromJson(s, j).Ok? ==>
      FromJson(s, j).value.VRec? && |FromJson(s, j).value.fields| == |s.members| &&
      forall i :: 0 <= i < |s.members| ==>
        FromJson(s, j).value.fields[i] ==
          if IsField(s.members[i]) then FromJson(s.members[i].ty, j.fields[s.members[i].tag]).value
          else MemberDefault(s.members[i])
    ensures FromJson(s, j).Err? ==>
      exists i :: 0 <= i < |s.members| && FirstFailingMember(s, j, i) &&
        FromJson(s, j).error == MemberFrom(s.members[i], j).error
  {
    var ms := s.members;
    FieldsFromAt(s, j, |ms|);
    forall i | 0 <= i < |ms| && IsField(ms[i])
      ensures MemberFrom(ms[i], j).Ok? <==>
        j.JObj? && ms[i].tag in j.fields && FromJson(ms[i].ty, j.fields[ms[i].tag]).Ok?
      ensures MemberFrom(ms[i], j).Ok? ==> MemberFrom(ms[i], j).value == FromJson(ms[i].ty, j.fields[ms[i].tag]).value
    {
      MemberFromCases(ms[i], j);
    }
  }

  /** A record without `Field` members decodes to `T{}` from any input, null included. */
  lemma RecordWithoutFieldsDecodesToDefault(s: Schema, j: Json)
    requires s.TRecord? && !HasField(s.members, |s.members|)
    ensures Decodable(s) && FromJson(s, j) == Ok(Default(s))
  {
    DecodeRecord(s, j);
    assert FromJson(s, j).value.fields == DefaultFields(s);
  }

  /** The failures of record decoding: an input that is not an object when the record has a
      `Field` member, a missing tag, or a `Field` member whose own decoding fails (a leaf of
      the wrong kind, a nested record that fails) each fail the whole call. */
  lemma DecodeRecordFailures(s: Schema, j: Json)
    requires s.TRecord? && Decodable(s)
    ensures HasField(s.members, |s.members|) && !j.JObj? ==> FromJson(s, j) == Err(NotAnObject)
    ensures forall i :: 0 <= i < |s.members| && IsField(s.members[i]) && j.JObj? && s.members[i].tag !in j.fields ==>
      FromJson(s, j).Err?
    ensures forall i :: 0 <= i < |s.members| && IsField(s.members[i]) && j.JObj? && s.members[i].tag in j.fields ==>
      FromJson(s.members[i].ty, j.fields[s.members[i].tag]).Err? ==> FromJson(s, j).Err?
  {
    DecodeRecord(s, j);
    if FromJson(s, j).Err? {
      var i :| 0 <= i < |s.members| && FirstFailingMember(s, j, i) &&
        FromJson(s, j).error == MemberFrom(s.members[i], j).error;
      MemberFromCases(s.members[i], j);
    }
  }

  /** The record loop reads nothing of an object but the values under its tags. */
  lemma {:induction false} FieldsFromReadsOnlyTags(s: Schema, m1: map<string, Json>, m2: map<string, Json>, k: nat)
    requires s.TRecord? && Decodable(s) && k <= |s.members|
    requires forall t :: t in Tags(s.members, |s.members|) ==> (t in m1 <==> t in m2) && (t in m1 ==> m1[t] == m2[t])
    ensures FieldsFrom(s, JObj(m1), k) == FieldsFrom(s, JObj(m2), k)
    decreases k
  {
    if k > 0 {
      FieldsFromReadsOnlyTags(s, m1, m2, k - 1);
      var m := s.members[k - 1];
      if IsField(m) {
        assert m.tag in Tags(s.members, |s.members|);
        assert MemberFrom(m, JObj(m1)) == MemberFrom(m, JObj(m2));
      }
    }
  }

  /** Keys that match no tag are ignored: two objects that agree on the record's tags decode
      alike. */
  lemma DecodeIgnoresUnknownKeys(s: Schema, m1: map<string, Json>, m2: map<string, Json>)
    requires s.TRecord? && Decodable(s)
    requires forall t :: t in Tags(s.members, |s.members|) ==> (t in m1 <==> t in m2) && (t in m1 ==> m1[t] == m2[t])
    ensures FromJson(s, JObj(m1)) == FromJson(s, JObj(m2))
  {
    FieldsFromReadsOnlyTags(s, m1, m2, |s.members|);
  }

  /** A decoded value has the target type. */
  lemma {:induction false} DecodeConforms(s: Schema, j: Json)
    requires Decodable(s) && WellFormed(s) && FromJson(s, j).Ok?
    ensures Conforms(s, FromJson(s, j).value)
    decreases s
  {
    if IsLeaf(s) {
    } else if IsDynamicContainer(s) {
      DecodeContainer(s, j);
      if j.JArr? {
        forall i | 0 <= i < |j.items|
          ensures Conforms(s.elem, FromJson(s, j).value.items[i])
        {
          DecodeConforms(s.elem, j.items[i]);
        }
      }
    } else {
      var ms := s.members;
      DecodeRecord(s, j);
      forall i | 0 <= i < |ms|
        ensures Conforms(ms[i].ty, FromJson(s, j).value.fields[i])
      {
        if IsField(ms[i]) {
          DecodeConforms(ms[i].ty, j.fields[ms[i].tag]);
        }
      }
    }
  }
}
