/** `serde/field.hpp`: the string literal that carries a tag at the type level, and the
    `Field` holder that pairs a value with such a tag. */
module Serde {

  /** `StringLiteral<N>`: a buffer of N characters copied from a string literal, the last of
      them being the literal's terminating `\0`. */
  class StringLiteral {
    const n: nat
    const value: array<char>

    ghost predicate Valid()
      reads this
    {
      n >= 1 && value.Length == n
    }

    /** `StringLiteral(const char (&str)[N])`: `std::copy_n(str, N, value)`. The source
        rejects N = 0 with a `static_assert`. */
    constructor (str: array<char>)
      requires str.Length >= 1
      ensures Valid() && n == str.Length && fresh(value)
      ensures value[..] == str[..]
    {
      n := str.Length;
      var buf := new char[str.Length];
      var i := 0;
      while i < str.Length
        invariant 0 <= i <= str.Length
        invariant forall k :: 0 <= k < i ==> buf[k] == str[k]
      {
        buf[i] := str[i];
        i := i + 1;
      }
      value := buf;
    }

    /** `to_string_view()`: the first N - 1 characters, without the terminator. */
    function ToStringView(): (r: string)
      requires Valid()
      reads this, value
      ensures |r| == n - 1
      ensures forall i :: 0 <= i < |r| ==> r[i] == value[i]
    {
      value[..n - 1]
    }
  }

  /** `Field<T, _tag>`: a value of type T with the tag `_tag`. The tag is a template
      argument, so it belongs to the type: it is fixed when a field is made and is copied
      from the source of a copy or move. */
  class Field<T> {
    const lit: StringLiteral
    var value: T

    ghost predicate Valid()
      reads this, lit
    {
      lit.Valid()
    }

    /** `tag()`: the tag's characters. */
    function Tag(): (r: string)
      requires Valid()
      reads this, lit, lit.value
      ensures |r| == lit.n - 1
      ensures forall i :: 0 <= i < |r| ==> r[i] == lit.value[i]
    {
      lit.ToStringView()
    }

    /** `Field() = default`. Inside an aggregate's `T t{}` the value is value-initialised;
        on its own an `int` is left indeterminate. Dafny has no generic `T{}`, so the
        caller passes the value found there as `zero`. */
    constructor Default(tag: StringLiteral, zero: T)
      requires tag.Valid()
      ensures Valid() && lit == tag && value == zero
    {
      lit := tag;
      value := zero;
    }

    /** `Field(U&& v)` with U the value type: the value is `v`. */
    constructor FromValue(tag: StringLiteral, v: T)
      requires tag.Valid()
      ensures Valid() && lit == tag && value == v
    {
      lit := tag;
      value := v;
    }

    /** The copy constructor: the new field has the other's value and tag. */
    constructor Copy(other: Field<T>)
      requires other.Valid()
      ensures Valid() && lit == other.lit && value == other.value
      ensures other.value == old(other.value)
    {
      lit := other.lit;
      value := other.value;
    }

    /** The move constructor: the value is moved out of `other`, which is left in a valid
        but unspecified state, as `std::move` leaves a moved-from value. */
    constructor Move(other: Field<T>)
      requires other.Valid()
      modifies other
      ensures Valid() && lit == other.lit && value == old(other.value)
    {
      lit := other.lit;
      value := other.value;
    }

    /** The copy assignment: only the value is transferred; the tag is the type's. */
    method CopyAssign(other: Field<T>) returns (self: Field<T>)
      requires Valid() && other.Valid() && other.Tag() == Tag()
      modifies this
      ensures self == this && value == old(other.value)
      ensures Valid() && Tag() == old(Tag())
    {
      value := other.value;
      self := this;
    }

    /** The move assignment: only the value is transferred, and `other` is left valid but
        unspecified. */
    method MoveAssign(other: Field<T>) returns (self: Field<T>)
      requires Valid() && other.Valid() && other.Tag() == Tag()
      modifies this, other
      ensures self == this && value == old(other.value)
      ensures Valid() && Tag() == old(Tag())
    {
      value := other.value;
      self := this;
    }

    /** `operator=(U&& v)` with U the value type: sets the value and returns this field. */
    method AssignValue(v: T) returns (self: Field<T>)
      requires Valid()
      modifies this
      ensures self == this && value == v
      ensures Valid() && Tag() == old(Tag())
    {
      value := v;
      self := this;
    }

    /** `operator T&()`: a reference to the value. An operation `f` applied through that
        reference changes the value and nothing else. */
    method ModifyThrough(f: T -> T)
      requires Valid()
      modifies this`value
      ensures value == f(old(value))
      ensures Valid() && Tag() == old(Tag())
    {
      value := f(value);
    }
  }

  /** The tag of a `Field` is a function of its literal's characters alone, so every field of
      one `Field<T, tag>` type reports the same tag. */
  lemma TagIsTypeLevel<T>(a: Field<T>, b: Field<T>)
    requires a.Valid() && b.Valid() && a.lit.value[..] == b.lit.value[..]
    ensures a.Tag() == b.Tag()
  {
    assert a.lit.value[..a.lit.n - 1] == b.lit.value[..b.lit.n - 1];
  }
}
