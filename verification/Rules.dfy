/** The allowlist language: rules grouped by port and protocol, what they allow, and the canonical
    form in which every allowlist has exactly one spelling. */
module Rules {
  import opened Base
  import opened Text

  datatype Triple = Triple(fqdn: string, port: U32, proto: string)

  datatype PortProto = PortProto(port: U32, proto: string)

  /** One toFQDNs/toPorts rule: every name, on that port and protocol. */
  datatype Rule = Rule(key: PortProto, names: seq<string>)

  function KeyOf(t: Triple): PortProto {
    PortProto(t.port, t.proto)
  }

  predicate Matches(r: Rule, t: Triple) {
    r.key == KeyOf(t) && t.fqdn in r.names
  }

  /** The meaning of a rule list: the traffic it lets out. */
  predicate Allows(rules: seq<Rule>, t: Triple) {
    rules != [] && (Matches(rules[0], t) || Allows(rules[1..], t))
  }

  predicate KeyLess(a: PortProto, b: PortProto) {
    a.port < b.port || (a.port == b.port && Less(a.proto, b.proto))
  }

  lemma KeyOrder(a: PortProto, b: PortProto)
    ensures !KeyLess(a, a)
    ensures KeyLess(a, b) || KeyLess(b, a) || a == b
  {
    LessIrreflexive(a.proto);
    LessTotal(a.proto, b.proto);
  }

  lemma KeyTransitive(a: PortProto, b: PortProto, c: PortProto)
    requires KeyLess(a, b) && KeyLess(b, c)
    ensures KeyLess(a, c)
  {
    if a.port == b.port == c.port { LessTransitive(a.proto, b.proto, c.proto); }
  }

  /** Strictly increasing, hence without repetition. */
  predicate Increasing(names: seq<string>) {
    |names| > 1 ==> Less(names[0], names[1]) && Increasing(names[1..])
  }

  predicate Canonical(rules: seq<Rule>) {
    rules != [] ==>
      && rules[0].names != [] && Increasing(rules[0].names)
      && (|rules| > 1 ==> KeyLess(rules[0].key, rules[1].key))
      && Canonical(rules[1..])
  }

  lemma {:induction false} IncreasingAt(names: seq<string>, j: nat)
    requires Increasing(names) && j + 1 < |names|
    ensures Less(names[j], names[j + 1])
  {
    if j > 0 { IncreasingAt(names[1..], j - 1); }
  }

  lemma {:induction false} CanonicalAt(rules: seq<Rule>, i: nat)
    requires Canonical(rules) && i < |rules|
    ensures rules[i].names != [] && Increasing(rules[i].names)
    ensures i + 1 < |rules| ==> KeyLess(rules[i].key, rules[i + 1].key)
  {
    if i > 0 { CanonicalAt(rules[1..], i - 1); }
  }

  /** The canonical order, spelt out for neighbours. */
  lemma CanonicalOrder(rules: seq<Rule>, i: nat)
    requires Canonical(rules) && i < |rules|
    ensures i + 1 < |rules| ==>
              var a, b := rules[i].key, rules[i + 1].key;
              a.port < b.port || (a.port == b.port && Precedes(a.proto, b.proto))
    ensures forall j :: 0 <= j < |rules[i].names| - 1 ==>
              Precedes(rules[i].names[j], rules[i].names[j + 1])
  {
    hide Canonical, Increasing, Less, Precedes;
    CanonicalAt(rules, i);
    if i + 1 < |rules| { LessIff(rules[i].key.proto, rules[i + 1].key.proto); }
    forall j | 0 <= j < |rules[i].names| - 1 ensures Precedes(rules[i].names[j], rules[i].names[j + 1]) {
      IncreasingAt(rules[i].names, j);
      LessIff(rules[i].names[j], rules[i].names[j + 1]);
    }
  }

  lemma {:induction false} FirstNameLeast(names: seq<string>, n: string)
    requires Increasing(names) && names != [] && n in names[1..]
    ensures Less(names[0], n)
  {
    if n != names[1] {
      FirstNameLeast(names[1..], n);
      LessTransitive(names[0], names[1], n);
    }
  }

  lemma {:induction false} FirstKeyLeast(rules: seq<Rule>, t: Triple)
    requires Canonical(rules) && rules != [] && Allows(rules[1..], t)
    ensures KeyLess(rules[0].key, KeyOf(t))
  {
    if !Matches(rules[1], t) {
      FirstKeyLeast(rules[1..], t);
      KeyTransitive(rules[0].key, rules[1].key, KeyOf(t));
    }
  }

  lemma HasMember(names: seq<string>)
    ensures names != [] ==> exists n :: n in names
  {
    if names != [] { assert names[0] in names; }
  }

  /** A strictly increasing list is determined by its members. */
  lemma {:induction false} IncreasingUnique(a: seq<string>, b: seq<string>)
    requires Increasing(a) && Increasing(b)
    requires forall n :: n in a <==> n in b
    ensures a == b
  {
    HasMember(a);
    HasMember(b);
    if a != [] && b != [] {
      SameFirst(a, b);
      forall n ensures n in a[1..] <==> n in b[1..] {
        if n in a[1..] { FirstNameLeast(a, n); LessIrreflexive(n); assert n in a; }
        if n in b[1..] { FirstNameLeast(b, n); LessIrreflexive(n); assert n in b; }
      }
      IncreasingUnique(a[1..], b[1..]);
      assert a == [a[0]] + a[1..] && b == [b[0]] + b[1..];
    }
  }

  lemma SameFirst(a: seq<string>, b: seq<string>)
    requires Increasing(a) && Increasing(b) && a != [] && b != []
    requires a[0] in b && b[0] in a
    ensures a[0] == b[0]
  {
    if a[0] != b[0] {
      FirstNameLeast(a, b[0]);
      FirstNameLeast(b, a[0]);
      LessTransitive(a[0], b[0], a[0]);
      LessIrreflexive(a[0]);
    }
  }

  /** In a canonical list, what the first rule's key allows is exactly its own names. */
  lemma FirstRuleDecides(rules: seq<Rule>, t: Triple)
    requires Canonical(rules) && rules != []
    ensures KeyOf(t) == rules[0].key ==> (Allows(rules, t) <==> t.fqdn in rules[0].names)
    ensures Allows(rules[1..], t) <==> Allows(rules, t) && KeyOf(t) != rules[0].key
  {
    if Allows(rules[1..], t) {
      FirstKeyLeast(rules, t);
      KeyOrder(rules[0].key, KeyOf(t));
    }
  }

  ghost predicate SameMeaning(a: seq<Rule>, b: seq<Rule>) {
    forall t :: Allows(a, t) <==> Allows(b, t)
  }

  /** The first rule's least triple. */
  function Witness(rules: seq<Rule>): Triple
    requires Canonical(rules) && rules != []
  {
    Triple(rules[0].names[0], rules[0].key.port, rules[0].key.proto)
  }

  lemma FirstKeyNotAfter(a: seq<Rule>, b: seq<Rule>)
    requires Canonical(a) && Canonical(b) && a != [] && SameMeaning(a, b)
    ensures b != [] && !KeyLess(a[0].key, b[0].key)
  {
    var t := Witness(a);
    assert Allows(a, t);
    assert Allows(b, t);
    if !Matches(b[0], t) {
      FirstKeyLeast(b, t);
      KeyOrder(a[0].key, a[0].key);
      if KeyLess(a[0].key, b[0].key) { KeyTransitive(a[0].key, b[0].key, a[0].key); }
    } else {
      KeyOrder(a[0].key, a[0].key);
    }
  }

  lemma SameFirstRule(a: seq<Rule>, b: seq<Rule>)
    requires Canonical(a) && Canonical(b) && a != [] && b != [] && SameMeaning(a, b)
    ensures a[0] == b[0]
  {
    FirstKeyNotAfter(a, b);
    FirstKeyNotAfter(b, a);
    KeyOrder(a[0].key, b[0].key);
    var key := a[0].key;
    forall n ensures n in a[0].names <==> n in b[0].names {
      var t := Triple(n, key.port, key.proto);
      FirstRuleDecides(a, t);
      FirstRuleDecides(b, t);
      assert Allows(a, t) <==> Allows(b, t);
    }
    IncreasingUnique(a[0].names, b[0].names);
  }

  /** Canonical form: two canonical rule lists that allow the same traffic are the same list. */
  lemma {:induction false} CanonicalUnique(a: seq<Rule>, b: seq<Rule>)
    requires Canonical(a) && Canonical(b) && SameMeaning(a, b)
    ensures a == b
  {
    if a == [] {
      if b != [] { FirstKeyNotAfter(b, a); }
    } else {
      FirstKeyNotAfter(a, b);
      SameFirstRule(a, b);
      forall t ensures Allows(a[1..], t) <==> Allows(b[1..], t) {
        FirstRuleDecides(a, t);
        FirstRuleDecides(b, t);
        assert Allows(a, t) <==> Allows(b, t);
      }
      CanonicalUnique(a[1..], b[1..]);
      assert a == [a[0]] + a[1..] && b == [b[0]] + b[1..];
    }
  }

  // ----- The simple form: add one triple at a time -----

  function AddName(names: seq<string>, n: string): (r: seq<string>)
    ensures r != []
  {
    if names == [] || Less(n, names[0]) then [n] + names
    else if n == names[0] then names
    else [names[0]] + AddName(names[1..], n)
  }

  function AddTriple(rules: seq<Rule>, t: Triple): (r: seq<Rule>)
    ensures r != []
  {
    if rules == [] || KeyLess(KeyOf(t), rules[0].key) then [Rule(KeyOf(t), [t.fqdn])] + rules
    else if KeyOf(t) == rules[0].key then [Rule(rules[0].key, AddName(rules[0].names, t.fqdn))] + rules[1..]
    else [rules[0]] + AddTriple(rules[1..], t)
  }

  lemma {:induction false} AddNameMeaning(names: seq<string>, n: string, m: string)
    ensures m in AddName(names, n) <==> m == n || m in names
  {
    if names != [] && !Less(n, names[0]) && n != names[0] {
      AddNameMeaning(names[1..], n, m);
      assert names == [names[0]] + names[1..];
    }
  }

  lemma {:induction false} AddNameIncreasing(names: seq<string>, n: string)
    requires Increasing(names)
    ensures Increasing(AddName(names, n))
    ensures AddName(names, n)[0] == n || (names != [] && AddName(names, n)[0] == names[0])
  {
    if names == [] {
    } else if Less(n, names[0]) {
      assert ([n] + names)[1..] == names;
    } else if n != names[0] {
      LessTotal(n, names[0]);
      AddNameIncreasing(names[1..], n);
      var r := AddName(names, n);
      assert r[1..] == AddName(names[1..], n);
    }
  }

  lemma {:induction false} AddTripleMeaning(rules: seq<Rule>, t: Triple, u: Triple)
    ensures Allows(AddTriple(rules, t), u) <==> u == t || Allows(rules, u)
  {
    var r := AddTriple(rules, t);
    if rules == [] || KeyLess(KeyOf(t), rules[0].key) {
      assert r[1..] == rules;
    } else if KeyOf(t) == rules[0].key {
      assert r[1..] == rules[1..];
      AddNameMeaning(rules[0].names, t.fqdn, u.fqdn);
    } else {
      assert r[1..] == AddTriple(rules[1..], t);
      AddTripleMeaning(rules[1..], t, u);
    }
  }

  lemma {:induction false} AddTripleCanonical(rules: seq<Rule>, t: Triple)
    requires Canonical(rules)
    ensures Canonical(AddTriple(rules, t))
    ensures AddTriple(rules, t)[0].key == KeyOf(t) || (rules != [] && AddTriple(rules, t)[0].key == rules[0].key)
  {
    var r := AddTriple(rules, t);
    if rules == [] || KeyLess(KeyOf(t), rules[0].key) {
      assert r[1..] == rules;
    } else if KeyOf(t) == rules[0].key {
      assert r[1..] == rules[1..];
      AddNameIncreasing(rules[0].names, t.fqdn);
    } else {
      KeyOrder(KeyOf(t), rules[0].key);
      assert r[1..] == AddTriple(rules[1..], t);
      AddTripleCanonical(rules[1..], t);
    }
  }
}
