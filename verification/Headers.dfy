/** What the content of an event says, member by member, for the shapes the rules decode. */
module Headers {
  import opened Options
  import opened Json
  import EventModel

  function MembersOf(c: Content): seq<Member> {
    match c
    case Doc(_, Obj(ms)) => ms
    case _ => []
  }

  predicate IsObject(c: Content) { c.Doc? && (c.value.Obj? || c.value.Null?) }

  predicate Textual(v: Json) { v.Str? || v.Null? }

  predicate Integral(v: Json) {
    v.Null? || (v.Int? && -0x8000_0000_0000_0000 <= v.n < 0x8000_0000_0000_0000)
  }

  // Every member that names this field holds a string or null.
  predicate TextField(c: Content, field: string) {
    forall m :: m in MembersOf(c) && Names(m, field) ==> Textual(m.value)
  }

  // Or a 64-bit integer or null.
  predicate IntegerField(c: Content, field: string) {
    forall m :: m in MembersOf(c) && Names(m, field) ==> Integral(m.value)
  }

  /** The document header is readable: no member of it has a value of another type. */
  predicate HeaderReadable(c: Content) {
    && IsObject(c) && IntegerField(c, "schema") && IntegerField(c, "revision")
    && TextField(c, "subject") && TextField(c, "updated_by") && TextField(c, "reason")
  }

  /** And so is the notice convention. */
  predicate ReadableNotice(c: Content) {
    IsObject(c) && TextField(c, "class") && TextField(c, "severity") && TextField(c, "summary")
  }

  // The last integer or null given for a field is this integer.
  ghost predicate Declares(c: Content, field: string, n: int) {
    exists i: nat :: LastIntegerAt(MembersOf(c), field, i) && MembersOf(c)[i].value == Int(n)
  }

  // The last string given for a field is this one.
  ghost predicate Says(c: Content, field: string, s: string) {
    exists i: nat :: LastStringAt(MembersOf(c), field, i) && MembersOf(c)[i].value == Str(s)
  }

  lemma MembersAgree(c: Content)
    requires c.Doc?
    ensures Members(c.value) == MembersOf(c)
  {}

  lemma TextFieldOk(c: Content, field: string)
    ensures StringFieldOk(MembersOf(c), field) <==> TextField(c, field)
  {
    var ms := MembersOf(c);
    forall i | 0 <= i < |ms| ensures ms[i] in ms {}
  }

  lemma IntegerFieldOk(c: Content, field: string)
    ensures IntFieldOk(MembersOf(c), field) <==> IntegerField(c, field)
  {
    var ms := MembersOf(c);
    forall i | 0 <= i < |ms| ensures ms[i] in ms {}
  }

  lemma IntFieldDeclares(c: Content, field: string, n: int)
    ensures IntField(MembersOf(c), field) == Some(n) <==> Declares(c, field, n)
  {
    IntFieldIsLast(MembersOf(c), field);
  }

  lemma {:induction false} LastStringExists(ms: seq<Member>, field: string)
    ensures StringField(ms, field) != "" ==>
      exists i: nat :: LastStringAt(ms, field, i) && ms[i].value.s == StringField(ms, field)
    decreases |ms|
  {
    if ms != [] {
      var front, last := ms[..|ms| - 1], |ms| - 1;
      if Names(ms[last], field) && ms[last].value.Str? {
        assert LastStringAt(ms, field, last);
      } else {
        LastStringExists(front, field);
        if i: nat :| LastStringAt(front, field, i) && front[i].value.s == StringField(front, field) {
          assert LastStringAt(ms, field, i);
        }
      }
    }
  }

  lemma StringFieldSays(c: Content, field: string, s: string)
    requires s != ""
    ensures StringField(MembersOf(c), field) == s <==> Says(c, field, s)
  {
    StringFieldIsLast(MembersOf(c), field);
    LastStringExists(MembersOf(c), field);
  }

  lemma HeaderDecodes(c: Content)
    ensures EventModel.DecodeEnvelope(c).Some? <==> HeaderReadable(c)
    ensures HeaderReadable(c) ==>
      var env := EventModel.DecodeEnvelope(c).value;
      && env.schema == IntField(MembersOf(c), "schema") && env.revision == IntField(MembersOf(c), "revision")
      && env.subject == StringField(MembersOf(c), "subject")
  {
    IntegerFieldOk(c, "schema");
    IntegerFieldOk(c, "revision");
    TextFieldOk(c, "subject");
    TextFieldOk(c, "updated_by");
    TextFieldOk(c, "reason");
  }

  /** Decoding the header succeeds exactly when it is readable, and gives what its members declare. */
  lemma HeaderMeans(c: Content)
    ensures EventModel.DecodeEnvelope(c).Some? <==> HeaderReadable(c)
    ensures HeaderReadable(c) ==>
      var env := EventModel.DecodeEnvelope(c).value;
      && (forall n :: env.schema == Some(n) <==> Declares(c, "schema", n))
      && (forall n :: env.revision == Some(n) <==> Declares(c, "revision", n))
      && (forall s :: s != "" ==> (env.subject == s <==> Says(c, "subject", s)))
  {
    HeaderDecodes(c);
    forall n ensures IntField(MembersOf(c), "schema") == Some(n) <==> Declares(c, "schema", n) {
      IntFieldDeclares(c, "schema", n);
    }
    forall n ensures IntField(MembersOf(c), "revision") == Some(n) <==> Declares(c, "revision", n) {
      IntFieldDeclares(c, "revision", n);
    }
    forall s | s != "" ensures StringField(MembersOf(c), "subject") == s <==> Says(c, "subject", s) {
      StringFieldSays(c, "subject", s);
    }
  }

  /** Decoding a notice succeeds exactly when it is readable, and gives what its members say. */
  lemma NoticeMeans(c: Content)
    ensures EventModel.DecodeNotice(c).Some? <==> ReadableNotice(c)
    ensures ReadableNotice(c) ==>
      var n := EventModel.DecodeNotice(c).value;
      && (forall s :: s != "" ==> (n.class_ == s <==> Says(c, "class", s)))
      && (forall s :: s != "" ==> (n.severity == s <==> Says(c, "severity", s)))
      && (forall s :: s != "" ==> (n.summary == s <==> Says(c, "summary", s)))
  {
    TextFieldOk(c, "class");
    TextFieldOk(c, "severity");
    TextFieldOk(c, "summary");
    forall s | s != "" ensures StringField(MembersOf(c), "class") == s <==> Says(c, "class", s) {
      StringFieldSays(c, "class", s);
    }
    forall s | s != "" ensures StringField(MembersOf(c), "severity") == s <==> Says(c, "severity", s) {
      StringFieldSays(c, "severity", s);
    }
    forall s | s != "" ensures StringField(MembersOf(c), "summary") == s <==> Says(c, "summary", s) {
      StringFieldSays(c, "summary", s);
    }
  }
}
