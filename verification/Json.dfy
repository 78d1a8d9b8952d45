/** JSON documents and the rules by which they decode into typed variables. */
module Json {
  import opened Options
  import Decimal

  datatype Json =
    | Null
    | Bool(b: bool)
    | Int(n: int)               // a number written with neither fraction nor exponent
    | Real(text: string)        // any other number
    | Str(s: string)
    | Arr(items: seq<Json>)
    | Obj(members: seq<Member>) // in document order, names may repeat

  datatype Member = Member(name: string, value: Json)

  /** The content of an event: a string, seen through the JSON scanner. */
  datatype Content =
    | Empty
    | Malformed(length: nat)
    | Doc(length: nat, value: Json)
  {
    function Length(): nat { if Empty? then 0 else length }
  }

  // Member names match struct fields without regard to case; two non-ASCII letters fold into ASCII.
  function FoldChar(c: char): char {
    if 'A' <= c <= 'Z' then (c as int - 'A' as int + 'a' as int) as char
    else if c == '\U{17F}' then 's'
    else if c == '\U{212A}' then 'k'
    else c
  }

  function FoldName(name: string): string {
    seq(|name|, i requires 0 <= i < |name| => FoldChar(name[i]))
  }

  predicate Names(m: Member, field: string) { FoldName(m.name) == field }

  // The members of a document decoded into a struct: null leaves it untouched, anything
  // that is not an object is a type mismatch.
  predicate StructShaped(v: Json) { v.Obj? || v.Null? }

  function Members(v: Json): seq<Member> { if v.Obj? then v.members else [] }

  // Every member for a string field holds a string or null; anything else makes the decode report an error.
  predicate StringFieldOk(ms: seq<Member>, field: string) {
    forall i :: 0 <= i < |ms| && Names(ms[i], field) ==> ms[i].value.Str? || ms[i].value.Null?
  }

  // The value a string field ends with: members apply in order, null and mismatches change nothing.
  function StringField(ms: seq<Member>, field: string): string
    decreases |ms|
  {
    if ms == [] then ""
    else
      var last := ms[|ms| - 1];
      if Names(last, field) && last.value.Str? then last.value.s else StringField(ms[..|ms| - 1], field)
  }

  predicate IntFieldOk(ms: seq<Member>, field: string) {
    forall i :: 0 <= i < |ms| && Names(ms[i], field) ==>
      ms[i].value.Null? || (ms[i].value.Int? && Decimal.InInt64(ms[i].value.n))
  }

  // An optional integer: null resets it to absent.
  function IntField(ms: seq<Member>, field: string): Option<int>
    decreases |ms|
  {
    if ms == [] then None
    else
      var last := ms[|ms| - 1];
      if Names(last, field) && last.value.Null? then None
      else if Names(last, field) && last.value.Int? then Some(last.value.n)
      else IntField(ms[..|ms| - 1], field)
  }

  // An optional boolean read with the decode error ignored. A mismatched value still allocates
  // the variable, so an absent one becomes false.
  function BoolField(ms: seq<Member>, field: string): Option<bool>
    decreases |ms|
  {
    if ms == [] then None
    else
      var last, before := ms[|ms| - 1], BoolField(ms[..|ms| - 1], field);
      if !Names(last, field) then before
      else if last.value.Null? then None
      else if last.value.Bool? then Some(last.value.b)
      else if before.None? then Some(false)
      else before
  }

  // A document decoded into a map of raw values: names match exactly and the last one wins.
  function RawField(v: Json, key: string): Option<Json> { LastNamed(Members(v), key) }

  function LastNamed(ms: seq<Member>, key: string): Option<Json>
    decreases |ms|
  {
    if ms == [] then None
    else if ms[|ms| - 1].name == key then Some(ms[|ms| - 1].value)
    else LastNamed(ms[..|ms| - 1], key)
  }

  // The last member that sets a string field.
  predicate LastStringAt(ms: seq<Member>, field: string, i: nat) {
    && i < |ms| && Names(ms[i], field) && ms[i].value.Str?
    && forall j :: i < j < |ms| ==> !(Names(ms[j], field) && ms[j].value.Str?)
  }

  /** A string field ends with the value of the last matching member that holds a string, and is empty
      when there is none. */
  lemma {:induction false} StringFieldIsLast(ms: seq<Member>, field: string)
    ensures forall i: nat :: LastStringAt(ms, field, i) ==> StringField(ms, field) == ms[i].value.s
    ensures (forall i :: 0 <= i < |ms| ==> !(Names(ms[i], field) && ms[i].value.Str?)) ==> StringField(ms, field) == ""
    decreases |ms|
  {
    if ms != [] && !(Names(ms[|ms| - 1], field) && ms[|ms| - 1].value.Str?) {
      var front := ms[..|ms| - 1];
      StringFieldIsLast(front, field);
      forall i: nat | LastStringAt(ms, field, i) ensures LastStringAt(front, field, i) {}
    }
  }

  // The last member that sets an integer field, or resets it.
  predicate LastIntegerAt(ms: seq<Member>, field: string, i: nat) {
    && i < |ms| && Names(ms[i], field) && (ms[i].value.Int? || ms[i].value.Null?)
    && forall j :: i < j < |ms| ==> !(Names(ms[j], field) && (ms[j].value.Int? || ms[j].value.Null?))
  }

  /** An integer field ends with the value of the last matching member that holds an integer or null, where
      null reads as absent, and is absent when there is none. */
  lemma {:induction false} IntFieldIsLast(ms: seq<Member>, field: string)
    ensures forall i: nat :: LastIntegerAt(ms, field, i) ==>
      IntField(ms, field) == if ms[i].value.Int? then Some(ms[i].value.n) else None
    ensures IntField(ms, field).Some? ==>
      exists i: nat :: LastIntegerAt(ms, field, i) && ms[i].value == Int(IntField(ms, field).value)
    decreases |ms|
  {
    if ms != [] {
      var front, last := ms[..|ms| - 1], |ms| - 1;
      if Names(ms[last], field) && (ms[last].value.Int? || ms[last].value.Null?) {
        assert LastIntegerAt(ms, field, last);
      } else {
        IntFieldIsLast(front, field);
        forall i: nat ensures LastIntegerAt(ms, field, i) <==> LastIntegerAt(front, field, i) {
          LastIntegerInFront(ms, field, i);
        }
      }
    }
  }

  lemma LastIntegerInFront(ms: seq<Member>, field: string, i: nat)
    requires ms != []
    requires !(Names(ms[|ms| - 1], field) && (ms[|ms| - 1].value.Int? || ms[|ms| - 1].value.Null?))
    ensures LastIntegerAt(ms, field, i) <==> LastIntegerAt(ms[..|ms| - 1], field, i)
  {}

  // The last member that sets a boolean field to what it says, or resets it.
  predicate LastBooleanAt(ms: seq<Member>, field: string, i: nat) {
    && i < |ms| && Names(ms[i], field) && (ms[i].value.Bool? || ms[i].value.Null?)
    && forall j :: i < j < |ms| ==> !(Names(ms[j], field) && (ms[j].value.Bool? || ms[j].value.Null?))
  }

  predicate NamedFrom(ms: seq<Member>, field: string, i: nat) { exists j :: i <= j < |ms| && Names(ms[j], field) }

  /** A boolean field ends with the last boolean given for it. After a null, or when none is given, it is
      absent, unless a member of another type follows, which leaves it false. */
  lemma {:induction false} BoolFieldIs(ms: seq<Member>, field: string)
    ensures forall i: nat :: LastBooleanAt(ms, field, i) && ms[i].value.Bool? ==>
      BoolField(ms, field) == Some(ms[i].value.b)
    ensures forall i: nat :: LastBooleanAt(ms, field, i) && ms[i].value.Null? ==>
      BoolField(ms, field) == if NamedFrom(ms, field, i + 1) then Some(false) else None
    ensures (forall i: nat :: !LastBooleanAt(ms, field, i)) ==>
      BoolField(ms, field) == if NamedFrom(ms, field, 0) then Some(false) else None
    decreases |ms|
  {
    if ms != [] {
      var front, last := ms[..|ms| - 1], |ms| - 1;
      BoolFieldIs(front, field);
      if Names(ms[last], field) && (ms[last].value.Bool? || ms[last].value.Null?) {
        assert LastBooleanAt(ms, field, last);
      } else {
        forall i: nat ensures LastBooleanAt(ms, field, i) <==> LastBooleanAt(front, field, i) {
          LastBooleanInFront(ms, field, i);
        }
        forall i: nat | i <= last
          ensures NamedFrom(ms, field, i) <==> NamedFrom(front, field, i) || Names(ms[last], field)
        {
          NamedFromFront(ms, field, i);
        }
      }
    }
  }

  lemma LastBooleanInFront(ms: seq<Member>, field: string, i: nat)
    requires ms != []
    requires !(Names(ms[|ms| - 1], field) && (ms[|ms| - 1].value.Bool? || ms[|ms| - 1].value.Null?))
    ensures LastBooleanAt(ms, field, i) <==> LastBooleanAt(ms[..|ms| - 1], field, i)
  {}

  lemma NamedFromFront(ms: seq<Member>, field: string, i: nat)
    requires ms != [] && i < |ms|
    ensures NamedFrom(ms, field, i) <==> NamedFrom(ms[..|ms| - 1], field, i) || Names(ms[|ms| - 1], field)
  {
    var front := ms[..|ms| - 1];
    if j :| i <= j < |front| && Names(front[j], field) {
      assert Names(ms[j], field);
    }
    if j :| i <= j < |ms| && Names(ms[j], field) {
      assert j < |front| ==> Names(front[j], field);
    }
  }

  // A letter of a name as encoding/json compares it with a letter of a lower-case field.
  predicate LetterMatches(c: char, letter: char) {
    || c == letter
    || ('a' <= letter <= 'z' && c as int == letter as int - 32)
    || (c == '\U{17F}' && letter == 's') || (c == '\U{212A}' && letter == 'k')
  }

  /** A member matches a lower-case field when it has as many letters, and they match one by one. */
  lemma NamesIgnoresCase(m: Member, field: string)
    requires forall i :: 0 <= i < |field| ==> 'a' <= field[i] <= 'z' || field[i] == '_'
    ensures Names(m, field) <==>
      |m.name| == |field| && forall i :: 0 <= i < |field| ==> LetterMatches(m.name[i], field[i])
  {
    if |m.name| == |field| {
      forall i | 0 <= i < |field| ensures FoldName(m.name)[i] == field[i] <==> LetterMatches(m.name[i], field[i]) {}
    }
  }

  predicate NamedLastAt(ms: seq<Member>, key: string, i: nat) {
    i < |ms| && ms[i].name == key && forall j :: i < j < |ms| ==> ms[j].name != key
  }

  /** A raw field is the value of the last member of exactly that name, and absent only when there is none. */
  lemma {:induction false} LastNamedIsLast(ms: seq<Member>, key: string)
    ensures LastNamed(ms, key) == None <==> forall j :: 0 <= j < |ms| ==> ms[j].name != key
    ensures forall i: nat :: NamedLastAt(ms, key, i) ==> LastNamed(ms, key) == Some(ms[i].value)
    decreases |ms|
  {
    if ms != [] && ms[|ms| - 1].name != key {
      var front := ms[..|ms| - 1];
      LastNamedIsLast(front, key);
      forall i: nat | NamedLastAt(ms, key, i) ensures NamedLastAt(front, key, i) {}
      forall j | 0 <= j < |front| ensures front[j] == ms[j] {}
    }
  }
}
