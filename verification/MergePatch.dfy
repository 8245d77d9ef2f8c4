/** JSON merge patch, section 2 of RFC 7396, and the diff that client.MergeFrom computes. */
module MergePatch {

  datatype Json = Null | Text(text: string) | Object(fields: map<string, Json>)

  /** MergePatch(Target, Patch) of section 2. */
  function Apply(target: Json, patch: Json): Json
    decreases patch
  {
    if patch.Object? then
      var fields := if target.Object? then target.fields else map[];
      Object(map name | name in fields.Keys + patch.fields.Keys
             && !(name in patch.fields && patch.fields[name] == Null) ::
               if name in patch.fields then Apply(if name in fields then fields[name] else Null, patch.fields[name])
               else fields[name])
    else patch
  }

  /** Section 2, member by member: null removes, anything else is merged into what is there, members the
      patch does not name stay, and a patch that is no object takes the target's place. */
  lemma ApplyMember(target: Json, patch: Json, name: string)
    ensures !patch.Object? ==> Apply(target, patch) == patch
    ensures patch.Object? ==> Apply(target, patch).Object?
    ensures patch.Object? && name in patch.fields && patch.fields[name] == Null ==> name !in Apply(target, patch).fields
    ensures patch.Object? && name in patch.fields && patch.fields[name] != Null ==>
              && name in Apply(target, patch).fields
              && Apply(target, patch).fields[name] == Apply(MemberOf(target, name), patch.fields[name])
    ensures patch.Object? && name !in patch.fields ==> MemberOf(Apply(target, patch), name) == MemberOf(target, name)
  {
  }

  /** The member, or null when there is none. */
  function MemberOf(j: Json, name: string): Json {
    if j.Object? && name in j.fields then j.fields[name] else Null
  }

  /** One of the examples of Appendix A: a nested member is replaced and another, not there, removed. */
  lemma AppendixExample()
    ensures Apply(Object(map["a" := Object(map["b" := Text("c")])]),
                  Object(map["a" := Object(map["b" := Text("d"), "c" := Null])])) ==
            Object(map["a" := Object(map["b" := Text("d")])])
  {
    var inner, patch := Object(map["b" := Text("c")]), Object(map["b" := Text("d"), "c" := Null]);
    assert Apply(inner, patch) == Object(map["b" := Text("d")]);
  }

  /** A document in which no member is null, as API objects are. */
  predicate NullFree(j: Json) {
    j != Null && (j.Object? ==> forall name :: name in j.fields ==> NullFree(j.fields[name]))
  }

  /** The patch that turns `before` into `after`: changed members, and null for removed ones. */
  function Diff(before: Json, after: Json): Json
    decreases after
  {
    if before.Object? && after.Object? then
      var a, b := before.fields, after.fields;
      Object((map name | name in b && !(name in a && a[name] == b[name]) ::
                if name in a then Diff(a[name], b[name]) else b[name])
           + (map name | name in a && name !in b :: Null))
    else after
  }

  lemma {:induction false} ApplyToNothing(patch: Json)
    requires NullFree(patch)
    ensures Apply(Null, patch) == patch
  {
    if patch.Object? {
      forall name | name in patch.fields ensures Apply(Null, patch.fields[name]) == patch.fields[name] {
        ApplyToNothing(patch.fields[name]);
      }
    }
  }

  lemma {:induction false} DiffNotNull(before: Json, after: Json)
    requires NullFree(after)
    ensures Diff(before, after) != Null
  {
  }

  /** A text member replaced, or anything by something of another kind: the patch is the new value. */
  lemma {:induction false} ApplyOver(before: Json, after: Json)
    requires NullFree(after) && !(before.Object? && after.Object?)
    ensures Apply(before, after) == after
  {
    if after.Object? {
      forall name | name in after.fields ensures Apply(Null, after.fields[name]) == after.fields[name] {
        ApplyToNothing(after.fields[name]);
      }
    }
  }

  /** The law of the pair: applying the diff to the document it was computed from gives the new one. */
  lemma {:induction false} ApplyDiff(before: Json, after: Json)
    requires NullFree(after)
    ensures Apply(before, Diff(before, after)) == after
    decreases after
  {
    if before.Object? && after.Object? {
      var a, b, d := before.fields, after.fields, Diff(before, after).fields;
      forall name | name in b && name in a && a[name] != b[name]
        ensures Apply(a[name], d[name]) == b[name] && d[name] != Null
      {
        ApplyDiff(a[name], b[name]);
        DiffNotNull(a[name], b[name]);
      }
      forall name | name in b && name !in a ensures Apply(Null, d[name]) == b[name] && d[name] != Null {
        ApplyToNothing(b[name]);
      }
      var result := Apply(before, Diff(before, after)).fields;
      assert result.Keys == b.Keys;
      assert result == b;
    } else {
      ApplyOver(before, after);
    }
  }

  /** Setting one member to something new is patched by that member alone. */
  lemma DiffOneMember(a: map<string, Json>, name: string, v: Json)
    requires name in a ==> a[name] != v
    ensures Diff(Object(a), Object(a[name := v])) == Object(map[name := if name in a then Diff(a[name], v) else v])
  {
    var d := Diff(Object(a), Object(a[name := v])).fields;
    assert d.Keys == {name};
  }

  lemma DiffNothing(a: map<string, Json>)
    ensures Diff(Object(a), Object(a)) == Object(map[])
  {
    assert Diff(Object(a), Object(a)).fields == map[];
  }

  /** A patch of one member leaves all others alone. */
  lemma ApplyOneMember(a: map<string, Json>, name: string, p: Json)
    requires p != Null
    ensures Apply(Object(a), Object(map[name := p])) == Object(a[name := Apply(if name in a then a[name] else Null, p)])
  {
    var r := Apply(Object(a), Object(map[name := p])).fields;
    var e := a[name := Apply(if name in a then a[name] else Null, p)];
    assert r.Keys == e.Keys;
    assert r == e;
  }

  lemma ApplyNothing(a: map<string, Json>)
    ensures Apply(Object(a), Object(map[])) == Object(a)
  {
    assert Apply(Object(a), Object(map[])).fields == a;
  }
}
