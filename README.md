# kie_toolbox_cpp: tagged-field JSON codec, `Field`, and the context pool

This project models three parts of the kie_toolbox_cpp C++ library and proves properties
of the models.

- **The tagged-field JSON codec** (`include/serde_json/json.hpp`). `to_json` walks a value
  by its static type and builds an `nlohmann::json` tree. Only members wrapped in
  `Field<T, tag>` are written, each under its tag. `from_json` starts from `T{}` and
  overwrites each `Field` member from the key with its tag.
- **`Field` and `StringLiteral`** (`include/serde/field.hpp`). A `Field` is a value holder
  whose tag is a template argument. A `StringLiteral` is the character buffer that carries
  that tag.
- **The index logic of `kie::context`** (`include/context/context.hpp`). The context is a
  pool of `io_context`s. It hands out entries round-robin, looks them up by index, and
  assigns worker threads to entries.

Files:

- `wrappers.dfy`: `Option` and `Result`.
- `json_tree.dfy`: the JSON tree.
  - Integers only; objects are maps, because `nlohmann::json` objects are `std::map`s.
  - `j[key] = v` and `push_back`.
- `schema.dfy`: the static types the codec is used with (`Schema`: `int`, `bool`,
  `std::string`, `std::vector`, `std::list`, `std::array`, aggregates of `Field` and bare
  members), and the values of those types.
  - An aggregate's member list stands in for what `boost::pfr` reflects. Default member
    initialisers are part of it.
  - Also here: the type classifier, and value-initialisation `T{}`.
- `encode.dfy`: `to_json`.
  - `ToJson` is the specification, written as recursive functions.
  - `Serialize`, `SerializeContainer` and `SerializeRecord` follow the source's loops and are
    proved equal to it.
- `decode.dfy`: `impl::from_json` and the top-level `from_json`.
  - `FromJson` is the specification. Its errors are the exceptions `j.at` and `get_to` throw.
  - `Deserialize`, `DeserializeContainer` and `DeserializeRecord` follow the source's loops
    and are proved equal to it.
- `roundtrip.dfy`: `from_json(to_json(v))`, the null policies, and a counterexample for
  duplicate tags.
- `scenarios.dfy`: the records of the repository's tests, encoded and decoded.
- `field.dfy`: `StringLiteral` and `Field` as classes.
- `context.dfy`: `kie::context` as a class over a sequence of opaque `IoContext` objects, and
  the round-robin property of `get_one`.

Three behaviours of the code that shape the model:

- **Missing keys.** The record decoder reads every `Field` member with `j.at(tag)`. That
  call throws when the key is missing or when the input is not an object, so a missing tag
  fails the whole call instead of leaving the member at its default. Null given for a record
  with at least one `Field` member fails the same way. Only a record with no `Field` member
  decodes from any input, null included.
- **Member initialisers.** The decoder starts from `T{}`, so a default member initialiser
  does apply to the outer record. A `Field` member of record type, however, is rebuilt from
  its own type's `T{}`, so the outer record's initialiser for that member is lost
  (`Scenarios.DecodeB`).
- **Key order.** An `nlohmann::json` object is a `std::map`, so keys come out in sorted
  order, not in declaration order. The model's objects are maps.

## Model

| member | source | states |
|---|---|---|
| Schema.IsContainer | include/serde_json/json.hpp:92-95 | `is_container` holds exactly for the types that are neither `int`, `bool`, `std::string` nor a record: vector, list and `std::array` |
| Schema.IsDynamicContainer | include/serde_json/json.hpp:102-108 | a dynamic container (vector or list) is a container and is not `std::array` |
| Schema.IsField | include/serde/field.hpp:186-197 | `is_field` holds exactly for the `Field<T, tag>` members |
| Schema.ClassifierIsTotalAndExclusive | include/serde_json/json.hpp:92-108 | every type is exactly one of leaf, container or record; the class-not-string test holds exactly for containers and records; containers are the dynamic ones plus `std::array` |
| Schema.Default | include/serde_json/json.hpp:224 | `T{}` has type `T`; a vector or list is empty in it |
| Schema.DefaultFields | include/serde_json/json.hpp:224 | the members of `T{}`, one per declared member, each its initialiser or its type's `T{}`, each of its member's type |
| Schema.MemberDefault | include/serde_json/json.hpp:224 | a member's value in `T{}` has the member's type when its initialiser does |
| JsonTree.Put | include/serde_json/json.hpp:136-138 | `j[key] = v` on null or an object gives an object whose keys are the old keys plus `key`, with `v` under `key` and every other key unchanged |
| JsonTree.PushBack | include/serde_json/json.hpp:172-176 | `push_back` on null or an array gives an array one longer, with the old items first and `v` last |
| Schema.IsClassNotString | include/serde_json/json.hpp:135 | `is_class_v<T> && !is_same_v<T, std::string>` holds exactly for the types other than `int`, `bool` and `std::string`, that is for containers and records |
| Encode.ToJson | include/serde_json/json.hpp:128-180 | `to_json` of any type gives null, an array or an object, never a bare scalar; an array only for a container and an object only for a record |
| Encode.EmbeddedJson | include/serde_json/json.hpp:135-139 | a value inside a `Field` or a container is stored as a JSON scalar exactly when its type is `int`, `bool` or `std::string` |
| Encode.ContainerJson | include/serde_json/json.hpp:164-180 | the container encoding is null exactly for no element, and otherwise an array with one entry per element |
| Encode.ContainerJsonOfEntries | include/serde_json/json.hpp:168-177 | an array holding, in order, the stored form of each element is the container encoding |
| Encode.LeafJson | include/serde_json/json.hpp:138 | an `int`, `bool` or `std::string` is stored as the JSON number, boolean or string of the same value |
| Encode.RecordJson | include/serde_json/json.hpp:128-142 | after any prefix of the members the tree is null or an object, and null exactly when no `Field` has been met (its key set is `Encode.RecordJsonKeys`) |
| Encode.RecordJsonKeys | include/serde_json/json.hpp:132-140 | after any prefix of the members the object's key set is exactly the tags of the `Field` members met |
| Encode.Serialize | include/serde_json/json.hpp:128-180 | `to_json` dispatched on the type equals the specification `ToJson` |
| Encode.SerializeContainer | include/serde_json/json.hpp:164-180 | the `push_back` loop over a container yields the container encoding: null for no element, else one entry per element |
| Encode.SerializeRecord | include/serde_json/json.hpp:128-142 | the `for_each_field` loop with `j[tag] = ...` yields the record encoding of all members |
| Encode.LeafToJsonIsNull | include/serde_json/json.hpp:128-156 | `to_json` of a bare `int`, `bool` or `std::string` is null |
| Encode.RecordJsonValueAt | include/serde_json/json.hpp:132-140 | a `Field` whose tag no later member reuses is found under its tag, stored as `to_json` of its value for a class other than string and as a leaf otherwise |
| Encode.RecordJsonValues | include/serde_json/json.hpp:132-140 | the same, for every member of the finished object at once |
| Encode.RecordToJson | include/serde_json/json.hpp:128-142 | `to_json` of a record is null exactly when it has no `Field` member; otherwise an object with exactly its tags as keys, the last member with each tag winning |
| Encode.RecordToJsonDistinct | include/serde_json/json.hpp:135-139 | with distinct tags every `Field` member's encoding is under its own tag, even when that encoding is null |
| Encode.ContainerToJson | include/serde_json/json.hpp:164-180 | `to_json` of a container is null exactly when it is empty, else an array with one entry per element in order, records and containers recursing and leaves stored directly |
| Encode.RecordJsonIgnoresBareMembers | include/serde_json/json.hpp:132-140 | two member lists that agree on the `Field` members give the same tree after any prefix |
| Encode.ToJsonIgnoresBareMembers | include/serde_json/json.hpp:128-142 | `to_json` of a record does not depend on its bare members |
| Decode.At | include/serde_json/json.hpp:229-231 | `j.at(key)` succeeds exactly on an object holding `key`, with its value; a non-object and a missing key are distinct errors |
| Decode.GetTo | include/serde_json/json.hpp:195-201 | the leaf conversion succeeds exactly when the JSON kind matches the type, with a value of that type, and fails with a kind error otherwise |
| Decode.FromJson | include/serde_json/json.hpp:195-260 | `impl::from_json` fails only with an exception of `at` or `get_to`, never a parse error; a dynamic container fails only on an array input and otherwise decodes to a sequence, one element per item of an array |
| Decode.MemberFrom | include/serde_json/json.hpp:227-232 | a `Field` member decodes only from an object that holds its tag, and fails only with an exception of `at` or `get_to` |
| Decode.ItemsFrom | include/serde_json/json.hpp:255-258 | a successful prefix of the item loop holds one value per item read; a failure is never a parse error |
| Decode.FieldsFrom | include/serde_json/json.hpp:224-234 | a successful prefix of the member loop holds one value per declared member; a failure is never a parse error |
| Decode.FromText | include/serde_json/json.hpp:270-313 | the text overloads fail on a parse error and otherwise decode the parsed tree |
| Decode.Deserialize | include/serde_json/json.hpp:195-260 | `impl::from_json` dispatched on the type equals the specification `FromJson` |
| Decode.DeserializeContainer | include/serde_json/json.hpp:243-260 | the dynamic-container loop with its early exit on a throwing item equals `FromJson` |
| Decode.DeserializeRecord | include/serde_json/json.hpp:220-235 | the `for_each_field` loop over `T t{}` with its early exit equals `FromJson` |
| Decode.DeserializeMember | include/serde_json/json.hpp:227-232 | the body run on one `Field` member reads `j.at(tag)` and converts it, as `MemberFrom` says |
| Decode.FieldsFromNext | include/serde_json/json.hpp:225-233 | one more member of the loop: a bare member changes nothing; a `Field` member throws or overwrites only its own slot |
| Decode.ItemsFromErrorSticks | include/serde_json/json.hpp:255-258 | once an item throws, the loop's outcome is that exception |
| Decode.FieldsFromErrorSticks | include/serde_json/json.hpp:225-233 | once a member throws, the loop's outcome is that exception |
| Decode.ItemsFromAt | include/serde_json/json.hpp:255-258 | a prefix of the item loop succeeds exactly when each of its items decodes, then holds their values in order, and otherwise holds the first failing item's error |
| Decode.FieldsFromAt | include/serde_json/json.hpp:224-234 | a prefix of the member loop succeeds exactly when each of its `Field` members decodes; then those hold their decoded values and all others their value in `T{}`; otherwise it holds the first failing member's error |
| Decode.MemberFromCases | include/serde_json/json.hpp:227-232 | a `Field` member fails on a non-object and on a missing tag, and otherwise decodes the value under its tag |
| Decode.DecodeContainer | include/serde_json/json.hpp:243-260 | a vector or list decodes to empty from any non-array; from an array of n items it succeeds exactly when every item decodes, giving n elements with element i decoded from item i, and otherwise fails with the first failing item's error |
| Decode.DecodeRecord | include/serde_json/json.hpp:220-235 | a record decodes exactly when, for every `Field` member, the input is an object that holds its tag with a value that decodes (so a record without `Field` members decodes from any input); then each `Field` holds the decoded value and each bare member its value in `T{}`; otherwise it fails with the first failing member's error |
| Decode.RecordWithoutFieldsDecodesToDefault | include/serde_json/json.hpp:220-235 | a record with no `Field` member decodes to `T{}` from any input, null included |
| Decode.DecodeRecordFailures | include/serde_json/json.hpp:229-231 | a record with a `Field` fails with `NotAnObject` on a non-object input, and fails on a missing tag and on a value under a tag that does not decode |
| Decode.FieldsFromReadsOnlyTags | include/serde_json/json.hpp:225-233 | the member loop reads nothing but the values under the record's tags |
| Decode.DecodeIgnoresUnknownKeys | include/serde_json/json.hpp:220-235 | two objects that agree on the record's tags decode alike, whatever other keys they hold |
| Decode.DecodeConforms | include/serde_json/json.hpp:195-260 | every decoded value has the target type |
| RoundTrip.Scrub | include/serde_json/json.hpp:132-140 | what survives a trip through JSON of a value of a well-formed type is still a value of that type |
| RoundTrip.ScrubIsIdentity | include/serde_json/json.hpp:132-140 | the trip loses nothing exactly when every bare member reachable through fields and elements holds its default |
| RoundTrip.EmbeddedRoundTrip | include/serde_json/json.hpp:128-260 | decoding what is stored for a value inside a field or container gives back its `Scrub` |
| RoundTrip.ContainerRoundTrip | include/serde_json/json.hpp:164-180 | a vector or list comes back from its encoding element by element |
| RoundTrip.RecordRoundTrip | include/serde_json/json.hpp:128-142 | a record with distinct tags comes back from its encoding with its bare members reset |
| RoundTrip.FieldsRoundTrip | include/serde_json/json.hpp:220-235 | when each `Field` member's own encoding decodes back, so does the record's |
| RoundTrip.RoundTrip | include/serde_json/json.hpp:128-260 | `from_json(to_json(v))` of a record or vector or list with distinct tags succeeds and gives `v` with every bare member reset to its default |
| RoundTrip.ExactRoundTrip | include/serde_json/json.hpp:128-260 | when the bare members already hold their defaults, `from_json(to_json(v)) == v` |
| RoundTrip.NullPoliciesRoundTrip | include/serde_json/json.hpp:151-260 | an empty vector or list encodes to null and null decodes to empty; a record without fields encodes to null and null decodes to its `T{}` |
| RoundTrip.DuplicateTagsLoseEarlierField | include/serde_json/json.hpp:136-138 | with two `Field<int, "x">` members holding 1 and 2 the object holds only 2, and decoding gives 2 to both |
| RoundTrip.TwoXEncode | include/serde_json/json.hpp:136-138 | with two members tagged `x` holding 1 and 2 the object is `{"x":2}` |
| RoundTrip.TwoXDecode | include/serde_json/json.hpp:229-231 | decoding `{"x":2}` into two members tagged `x` gives 2 to both |
| Scenarios.EncodeDefaultB | test/serde_json/to_json_test.cpp:75-97 | `to_json(B{})` is `{"i":0,"inner":null}` |
| Scenarios.DecodeMembersOfB | test/serde_json/from_json_test.cpp:86-89 | from `{"i":10,"inner":null}` the member `i` reads 10 and the member `inner` reads `Inner{}` |
| Scenarios.DecodeB | test/serde_json/from_json_test.cpp:60-89 | `from_json<B>` of `{"i":10,"inner":null}` gives `i` 10, `b` false and `inner.i` 0 |
| Scenarios.IntVectors | test/serde_json/to_json_test.cpp:21-24 | `to_json` of the vector `{1,2,3}` is `[1,2,3]` and of an empty vector is null; `[1,2]` decodes to `{1,2}` and null to an empty vector (from_json_test.cpp:10-12) |
| Scenarios.DefaultOfB | test/serde_json/to_json_test.cpp:75-80 | `B{}` holds 0, false and `Inner{.i = 10}`, and has type `B` |
| Scenarios.EncodeA | test/serde_json/to_json_test.cpp:41-57 | `to_json(A{})` of `struct A { int i; bool b; Inner inner; }` is null, and so is any value of `A` |
| Scenarios.DecodeA | test/serde_json/from_json_test.cpp:23-42 | `from_json<A>("null")` gives `i` 0, `b` false and `inner.i` 0, and so does any other input |
| Scenarios.EncodeInner | test/serde_json/to_json_test.cpp:97 | a record without `Field` members encodes to null |
| Scenarios.DecodeInner | test/serde_json/from_json_test.cpp:86-89 | a record without `Field` members decodes from any input to its defaults |
| Scenarios.DecodeFailures | include/serde_json/json.hpp:229-231 | a missing key, a string for an int, and an array for a record each fail with their error |
| Serde.StringLiteral.constructor | include/serde/field.hpp:37-40 | the literal needs at least one character and the buffer is a fresh copy of all N of them |
| Serde.StringLiteral.ToStringView | include/serde/field.hpp:47-50 | the view has N - 1 characters, the stored ones before the terminator |
| Serde.Field.Tag | include/serde/field.hpp:154-157 | `tag()` is the tag literal's characters without the terminator |
| Serde.Field.Default | include/serde/field.hpp:75 | a defaulted field has the type's tag and the value it is initialised with |
| Serde.Field.FromValue | include/serde/field.hpp:85-89 | a field built from `v` has the type's tag and value `v` |
| Serde.Field.Copy | include/serde/field.hpp:97-100 | a copy has the source's value and tag, and the source is unchanged |
| Serde.Field.Move | include/serde/field.hpp:106-109 | a moved-to field has the source's former value and its tag |
| Serde.Field.CopyAssign | include/serde/field.hpp:116-120 | copy assignment sets the value to the other's, keeps the tag and returns this field |
| Serde.Field.MoveAssign | include/serde/field.hpp:128-132 | move assignment sets the value to the other's former value, keeps the tag and returns this field |
| Serde.Field.AssignValue | include/serde/field.hpp:143-148 | assigning `v` sets the value to `v`, keeps the tag and returns this field |
| Serde.Field.ModifyThrough | include/serde/field.hpp:169-172 | an update through `operator T&` changes the value as the update says and nothing else |
| Serde.TagIsTypeLevel | include/serde/field.hpp:154-157 | fields whose tag literals hold the same characters report the same tag |
| Contexts.Next | include/context/context.hpp:116-117 | the index after `get_one` is one more, wrapping to 0 past the end |
| Contexts.Turns | include/context/context.hpp:114-119 | k calls of `get_one` hand out k indices, each inside the pool |
| Contexts.After | include/context/context.hpp:114-119 | the index left after k calls of `get_one` is inside the pool |
| Contexts.AfterStep | include/context/context.hpp:116-117 | one more call of `get_one` moves that index on by one, wrapping |
| Contexts.TurnsAfter | include/context/context.hpp:114-119 | call i of a run hands out the index that the first i calls leave behind |
| Contexts.AfterLastTurn | include/context/context.hpp:114-119 | after k > 0 calls the index is one past the last index handed out, wrapping |
| Contexts.FullCycle | include/context/context.hpp:114-119 | n calls of `get_one` on a pool of n bring the index back to where it started |
| Contexts.DrawsFollowTurns | include/context/context.hpp:110-119 | draws made at the indices the calls leave behind are the draws of the round-robin sequence, and n of them cover a pool of n |
| Contexts.TurnsFirst | include/context/context.hpp:114-119 | a run of `get_one` calls begins at the current index and continues as a run from the next index |
| Contexts.Context.Sized | include/context/context.hpp:73-80 | `context(n)` holds n distinct new io_contexts, each with its own work guard in order, and index 0 |
| Contexts.Context.Wrap | include/context/context.hpp:89-93 | `context(ctx)` holds exactly `ctx`, with one guard on it, and index 0 |
| Contexts.Context.GetOne | include/context/context.hpp:114-119 | `get_one` returns the entry at the current index and moves the index on by one modulo the pool size, keeping it inside the pool |
| Contexts.Context.Get | include/context/context.hpp:130-137 | `get(idx)` reports true exactly for an index inside the pool, returning that entry, and otherwise returns the first entry |
| Contexts.Context.GetAll | include/context/context.hpp:147-150 | `get_all` is the whole pool in order |
| Contexts.Context.Schedule | include/context/context.hpp:157-190 | `run` and `run_as_daemon` start `max(size, hint)` workers, worker i driving entry `i % size`, so each entry has a worker |
| Contexts.TurnsAt | include/context/context.hpp:114-119 | call i of a run of `get_one` calls from index `start` hands out `start + i`, wrapped past the end |
| Contexts.Context.GetMany | include/context/context.hpp:110-119 | k calls of `get_one` return the entries at the k indices of the round-robin sequence from the old index, and leave the index at `After(old index, size, k)`: unchanged for k = 0, otherwise one past the last index handed out, wrapping; k equal to the pool size returns every entry |
| Contexts.EveryEntryHandedOut | include/context/context.hpp:110-119 | n draws on a pool of n that follow the round-robin sequence include every entry of the pool |
| Contexts.RoundRobin | include/context/context.hpp:110-119 | n consecutive `get_one` calls on a pool of n, from any index, hand out every entry exactly once |

`Encode.ToJson`, `Encode.EmbeddedJson`, `Encode.ContainerJson`, `Decode.FromJson` and
`Decode.MemberFrom` are the recursive specification functions. Their own contracts give the
shape of their results; what they compute is stated by the lemmas above.

## Left out

- JSON text parsing and `dump` belong to nlohmann::json. `Decode.FromText` takes the parser
  as a function parameter, and a parse failure is `ParseError`.
- `boost::pfr` reflection and C++ overload resolution are replaced by the explicit `Schema`
  member list and by dispatch on it.
- Floating-point values, `char` and `const char*` are not modelled. The leaves are
  unbounded integers, booleans and strings.
- Decode.GetTo: accepts only an exact JSON kind. It does not model nlohmann's lenient
  conversions (a boolean read into an `int`, a float truncated to an `int`), nor overflow
  of a JSON number read into a 32-bit `int`.
- Decode.FromJson: has no case for `std::array`. The source has no fixed-container decode
  branch, and `Schema.Decodable` excludes such types. `std::array` is still encoded.
- Exceptions are collapsed into four `Error` values. A type error raised by `j.at` on a
  non-object is `NotAnObject`.
- Serde.Field.Move: says nothing about the moved-from field's value. The source leaves it
  in the unspecified state `std::move` leaves.
- Serde.Field.Default: `T{}` has no generic Dafny counterpart, so the initial value is a
  parameter.
- The `U` template parameter of `Field`'s value constructor and assignment is just `T`.
  Dafny's typing enforces the `is_same_v` constraint.
- Contexts.Context.Schedule: returns which entry each worker drives; it does not start
  threads. It covers the index arithmetic of both `run` and `run_as_daemon`.
- The rest of `kie::context` is not modelled: thread creation, `join` and `detach`,
  `io_context::run`, the work guards' effect, `stop()`, and the unsynchronised update of
  `current_idx`. These are I/O and concurrency.
- The default `context()` constructor is `Contexts.Context.Sized` applied to
  `std::thread::hardware_concurrency()`. That value is a parameter here and may be 0.
- `get_one`, the fallback of `get`, and `run`/`run_as_daemon` with a nonzero hint index an
  empty pool or take a remainder by its size 0 in the source, which is undefined
  behaviour. The models of `get_one`, `get` and `Contexts.Context.Schedule` require a
  non-empty pool (for `Schedule`, a non-empty pool or a zero hint).
- Who owns the `io_context` (the two deleters) is not modelled.
- `include/utility/defer.hpp` (destructor-run callbacks) and `include/container/tuple.hpp`
  (a compile-time fold over a tuple) hold no data logic and are not part of this model.
