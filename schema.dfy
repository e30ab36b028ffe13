/** The static C++ types the codec is instantiated with, and the values of those types.
    A `Schema` replaces what `boost::pfr` reflects at compile time: the member list of an
    aggregate, in declaration order, with each member either a `Field<T, tag>` or a bare
    member. The type classifier of `serde_json/json.hpp` and `serde/field.hpp` is stated
    over it. */
module Schema {
  import opened Wrappers

  datatype Schema =
    | TInt                                // `int`
    | TBool                               // `bool`
    | TString                             // `std::string`
    | TVec(elem: Schema)                  // `std::vector<elem>`
    | TList(elem: Schema)                 // `std::list<elem>`
    | TArray(elem: Schema, size: nat)     // `std::array<elem, size>`
    | TRecord(members: seq<Member>)       // an aggregate struct

  /** A member of an aggregate: `Field<ty, tag>` or a bare `ty`. `init` is the default
      member initialiser (`Field<int, "i"> i = 10;`), `None` when the member is
      value-initialised. */
  datatype Member =
    | Tagged(tag: string, ty: Schema, init: Option<Value>)
    | Plain(ty: Schema, init: Option<Value>)

  /** A value of some static type. The value of a `Field` member is the wrapped value. */
  datatype Value =
    | VInt(i: int)
    | VBool(b: bool)
    | VStr(s: string)
    | VSeq(items: seq<Value>)
    | VRec(fields: seq<Value>)

  // ---------------------------------------------------------------------------
  // The type classifier

  /** `type_trait::is_container`: `std::vector`, `std::list` or `std::array`. */
  predicate IsContainer(s: Schema)
    ensures IsContainer(s) <==> s != TInt && s != TBool && s != TString && !s.TRecord?
  {
    s.TVec? || s.TList? || s.TArray?
  }

  /** `type_trait::is_dynamic_container`: `std::vector` or `std::list`. */
  predicate IsDynamicContainer(s: Schema)
    ensures IsDynamicContainer(s) ==> IsContainer(s) && !s.TArray?
  {
    s.TVec? || s.TList?
  }

  /** `type_trait::is_field`: true exactly for a `Field<T, tag>` member. */
  predicate IsField(m: Member)
    ensures IsField(m) <==> exists t, ty, init :: m == Tagged(t, ty, init)
  {
    m.Tagged?
  }

  /** The test both engines repeat: `std::is_class_v<T> && !std::is_same_v<T, std::string>`.
      `int` and `bool` are not classes; `std::string` is a class but is excluded. */
  predicate IsClassNotString(s: Schema)
    ensures IsClassNotString(s) <==> s != TInt && s != TBool && s != TString
    ensures IsClassNotString(s) <==> IsContainer(s) || s.TRecord?
  {
    s.TVec? || s.TList? || s.TArray? || s.TRecord?
  }

  /** The types `nlohmann::json` converts directly, to and from a JSON leaf. */
  predicate IsLeaf(s: Schema) {
    s.TInt? || s.TBool? || s.TString?
  }

  /** The classifier is a total and exclusive dispatch table: every type is exactly one of
      scalar, string, dynamic container, fixed container or record. */
  lemma ClassifierIsTotalAndExclusive(s: Schema)
    ensures IsLeaf(s) != IsClassNotString(s)
    ensures IsClassNotString(s) <==> IsContainer(s) || s.TRecord?
    ensures IsContainer(s) <==> IsDynamicContainer(s) || s.TArray?
    ensures !(IsContainer(s) && s.TRecord?)
    ensures !(IsDynamicContainer(s) && s.TArray?)
  {
  }

  // ---------------------------------------------------------------------------
  // Well-typed values and default values

  /** `v` is a value of static type `s`. */
  predicate Conforms(s: Schema, v: Value)
    decreases s
  {
    match s
    case TInt => v.VInt?
    case TBool => v.VBool?
    case TString => v.VStr?
    case TVec(e) => v.VSeq? && forall i :: 0 <= i < |v.items| ==> Conforms(e, v.items[i])
    case TList(e) => v.VSeq? && forall i :: 0 <= i < |v.items| ==> Conforms(e, v.items[i])
    case TArray(e, n) =>
      v.VSeq? && |v.items| == n && forall i :: 0 <= i < |v.items| ==> Conforms(e, v.items[i])
    case TRecord(ms) =>
      v.VRec? && |v.fields| == |ms| && forall i :: 0 <= i < |ms| ==> Conforms(ms[i].ty, v.fields[i])
  }

  /** Every default member initialiser has the member's type, as the C++ compiler demands. */
  predicate WellFormed(s: Schema)
    decreases s
  {
    match s
    case TVec(e) => WellFormed(e)
    case TList(e) => WellFormed(e)
    case TArray(e, _) => WellFormed(e)
    case TRecord(ms) =>
      forall i :: 0 <= i < |ms| ==>
        WellFormed(ms[i].ty) && (ms[i].init.Some? ==> Conforms(ms[i].ty, ms[i].init.value))
    case _ => true
  }

  /** `T{}`: value-initialisation. Scalars are zero, containers empty except `std::array`,
      whose elements are value-initialised, and a record's members take their default member
      initialiser or are value-initialised. */
  function Default(s: Schema): (r: Value)
    ensures WellFormed(s) ==> Conforms(s, r)
    ensures IsDynamicContainer(s) ==> r == VSeq([])
    decreases s, 1
  {
    match s
    case TInt => VInt(0)
    case TBool => VBool(false)
    case TString => VStr("")
    case TVec(_) => VSeq([])
    case TList(_) => VSeq([])
    case TArray(e, n) => VSeq(seq(n, _ => Default(e)))
    case TRecord(ms) => VRec(DefaultFields(s))
  }

  /** The member values of `T{}` for a record type `s`. */
  function DefaultFields(s: Schema): (r: seq<Value>)
    requires s.TRecord?
    ensures |r| == |s.members|
    ensures forall i :: 0 <= i < |r| ==> r[i] == MemberDefault(s.members[i])
    ensures WellFormed(s) ==> forall i :: 0 <= i < |r| ==> Conforms(s.members[i].ty, r[i])
    decreases s, 0
  {
    var ms := s.members;
    seq(|ms|, i requires 0 <= i < |ms| => MemberDefault(ms[i]))
  }

  /** The value a member has in `T{}`: its initialiser, or its type's default. */
  function MemberDefault(m: Member): (r: Value)
    ensures WellFormed(m.ty) && (m.init.Some? ==> Conforms(m.ty, m.init.value)) ==> Conforms(m.ty, r)
    decreases m, 2
  {
    match m.init
    case Some(x) => x
    case None => Default(m.ty)
  }

  // ---------------------------------------------------------------------------
  // Member lists

  /** Some member among the first `k` is a `Field`. */
  predicate HasField(ms: seq<Member>, k: nat)
    requires k <= |ms|
  {
    exists i :: 0 <= i < k && IsField(ms[i])
  }

  /** The tags of the `Field` members among the first `k`. */
  function Tags(ms: seq<Member>, k: nat): set<string>
    requires k <= |ms|
  {
    set i | 0 <= i < k && IsField(ms[i]) :: ms[i].tag
  }

  /** Member `i` is a `Field` and no later `Field` among the first `k` has its tag. */
  predicate LastWithTag(ms: seq<Member>, k: nat, i: nat)
    requires i < k <= |ms|
  {
    IsField(ms[i]) && forall j :: i < j < k && IsField(ms[j]) ==> ms[j].tag != ms[i].tag
  }

  /** Within every record reachable through `Field` members and container elements, the
      `Field` members carry distinct tags. The source assumes this and does not check it. */
  predicate DistinctTags(s: Schema)
    decreases s
  {
    match s
    case TVec(e) => DistinctTags(e)
    case TList(e) => DistinctTags(e)
    case TArray(e, _) => DistinctTags(e)
    case TRecord(ms) =>
      (forall i, j :: 0 <= i < j < |ms| && IsField(ms[i]) && IsField(ms[j]) ==> ms[i].tag != ms[j].tag)
      && (forall i :: 0 <= i < |ms| && IsField(ms[i]) ==> DistinctTags(ms[i].ty))
    case _ => true
  }

  /** `from_json` has a branch for every type it reaches: it reaches the types of `Field`
      members and the elements of dynamic containers, and has no branch for `std::array`. */
  predicate Decodable(s: Schema)
    decreases s
  {
    match s
    case TVec(e) => Decodable(e)
    case TList(e) => Decodable(e)
    case TArray(_, _) => false
    case TRecord(ms) => forall i :: 0 <= i < |ms| && IsField(ms[i]) ==> Decodable(ms[i].ty)
    case _ => true
  }
}
