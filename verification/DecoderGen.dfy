/** The decoder generator: from a table of instructions to nested switches over opcode, funct3 and
    funct7, and what the switches dispatch. */
module DecoderGen {
  import opened Bits

  // An instruction of the ISA table; YAML names are unique.
  datatype Entry = Entry(name: string, opcode: nat, funct3: Option<nat>, funct7: Option<nat>)

  // The fields of an instruction word the switches look at.
  datatype Fields = Fields(opcode: nat, funct3: nat, funct7: nat)

  // Generated code. A missing label is Ruby's nil, which no word equals.
  datatype Funct7Case = Funct7Case(funct7: Option<nat>, name: string)
  datatype Funct3Body = One(name: string) | Funct7Switch(cases: seq<Funct7Case>)
  datatype Funct3Case = Funct3Case(funct3: Option<nat>, body: Funct3Body)
  datatype OpcodeBody = Direct(name: string) | Funct3Switch(cases: seq<Funct3Case>)
  datatype OpcodeCase = OpcodeCase(opcode: nat, body: OpcodeBody)

  // --- group_by ---

  datatype Group<K> = Group(key: K, members: seq<Entry>)

  function Members<K(==)>(s: seq<Entry>, key: Entry -> K, k: K): seq<Entry>
  {
    if s == [] then [] else (if key(s[0]) == k then [s[0]] else []) + Members(s[1..], key, k)
  }

  // The keys in order of first occurrence.
  function Keys<K(==)>(s: seq<Entry>, key: Entry -> K): seq<K>
  {
    if s == [] then []
    else
      var before := Keys(s[..|s| - 1], key);
      if key(s[|s| - 1]) in before then before else before + [key(s[|s| - 1])]
  }

  function GroupsOf<K(==)>(s: seq<Entry>, key: Entry -> K, keys: seq<K>): seq<Group<K>>
  {
    if keys == [] then []
      else GroupsOf(s, key, keys[..|keys| - 1]) + [Group(keys[|keys| - 1], Members(s, key, keys[|keys| - 1]))]
  }

  function GroupBy<K(==)>(s: seq<Entry>, key: Entry -> K): seq<Group<K>> { GroupsOf(s, key, Keys(s, key)) }

  // --- the generated switches ---

  function Funct7Cases(instrs: seq<Entry>): seq<Funct7Case>
  {
    if instrs == [] then []
    else Funct7Cases(instrs[..|instrs| - 1]) + [Funct7Case(instrs[|instrs| - 1].funct7, instrs[|instrs| - 1].name)]
  }

  function Funct3BodyOf(instrs: seq<Entry>): Funct3Body
  {
    if |instrs| == 1 then One(instrs[0].name) else Funct7Switch(Funct7Cases(instrs))
  }

  function Funct3Cases(groups: seq<Group<Option<nat>>>): seq<Funct3Case>
  {
    if groups == [] then []
    else
      var g := groups[|groups| - 1];
      Funct3Cases(groups[..|groups| - 1]) + [Funct3Case(g.key, Funct3BodyOf(g.members))]
  }

  function Funct3Of(): Entry -> Option<nat> { (e: Entry) => e.funct3 }

  function OpcodeOf(): Entry -> nat { (e: Entry) => e.opcode }

  function OpcodeBodyOf(instrs: seq<Entry>): OpcodeBody
  {
    if |instrs| == 1 then Direct(instrs[0].name) else Funct3Switch(Funct3Cases(GroupBy(instrs, Funct3Of())))
  }

  function OpcodeCases(groups: seq<Group<nat>>): seq<OpcodeCase>
  {
    if groups == [] then []
    else
      var g := groups[|groups| - 1];
      OpcodeCases(groups[..|groups| - 1]) + [OpcodeCase(g.key, OpcodeBodyOf(g.members))]
  }

  function Generate(table: seq<Entry>): seq<OpcodeCase> { OpcodeCases(GroupBy(table, OpcodeOf())) }

  // --- what the switches do; None is UNKNOWN ---

  function RunFunct7(cases: seq<Funct7Case>, w: Fields): Option<string>
  {
    if cases == [] then None
    else if cases[0].funct7 == Some(w.funct7) then Some(cases[0].name)
    else RunFunct7(cases[1..], w)
  }

  function RunFunct3(cases: seq<Funct3Case>, w: Fields): Option<string>
  {
    if cases == [] then None
    else if cases[0].funct3 == Some(w.funct3) then
      match cases[0].body
      case One(name) => Some(name)
      case Funct7Switch(inner) => RunFunct7(inner, w)
    else RunFunct3(cases[1..], w)
  }

  function RunOpcode(cases: seq<OpcodeCase>, w: Fields): Option<string>
  {
    if cases == [] then None
    else if cases[0].opcode == w.opcode then
      match cases[0].body
      case Direct(name) => Some(name)
      case Funct3Switch(inner) => RunFunct3(inner, w)
    else RunOpcode(cases[1..], w)
  }

  function Dispatch(table: seq<Entry>, w: Fields): Option<string> { RunOpcode(Generate(table), w) }

  // --- well-formed tables ---

  ghost predicate UniqueNames(table: seq<Entry>)
  {
    forall a, b | 0 <= a < b < |table| :: table[a].name != table[b].name
  }

  // Where an opcode is shared both declare funct3; where that is shared too, distinct funct7.
  predicate Separable(d: Entry, e: Entry)
  {
    d.opcode == e.opcode ==>
      d.funct3.Some? && e.funct3.Some? &&
      (d.funct3 == e.funct3 ==> d.funct7.Some? && e.funct7.Some? && d.funct7 != e.funct7)
  }

  ghost predicate WellFormed(table: seq<Entry>)
  {
    UniqueNames(table) && forall a, b | 0 <= a < b < |table| :: Separable(table[a], table[b])
  }

  // Every field the entry declares is in the word.
  predicate Matches(e: Entry, w: Fields)
  {
    e.opcode == w.opcode && (e.funct3.Some? ==> e.funct3.value == w.funct3) &&
    (e.funct7.Some? ==> e.funct7.value == w.funct7)
  }

  // The fields the switches test for e: no more than it takes to tell it from the other entries.
  ghost predicate SharesOpcode(table: seq<Entry>, e: Entry) { exists d | d in table :: d != e && d.opcode == e.opcode }

  ghost predicate SharesFunct3(table: seq<Entry>, e: Entry)
  {
    exists d | d in table :: d != e && d.opcode == e.opcode && d.funct3 == e.funct3
  }

  ghost predicate Tested(table: seq<Entry>, e: Entry, w: Fields)
  {
    e.opcode == w.opcode &&
    (SharesOpcode(table, e) ==> e.funct3 == Some(w.funct3)) &&
    (SharesFunct3(table, e) ==> e.funct7 == Some(w.funct7))
  }

  // --- proofs ---

  lemma {:induction false} InMembers<K>(s: seq<Entry>, key: Entry -> K, k: K, e: Entry)
    ensures e in Members(s, key, k) <==> e in s && key(e) == k
    decreases |s|
  {
    if s != [] {
      InMembers(s[1..], key, k, e);
    }
  }

  lemma {:induction false} MembersDistinct<K>(s: seq<Entry>, key: Entry -> K, k: K)
    requires UniqueNames(s)
    ensures UniqueNames(Members(s, key, k))
    decreases |s|
  {
    if s != [] {
      assert forall b | 0 <= b < |s[1..]| :: s[1..][b] == s[b + 1];
      MembersDistinct(s[1..], key, k);
      var m := Members(s[1..], key, k);
      forall b | 0 <= b < |m|
        ensures m[b].name != s[0].name
      {
        InMembers(s[1..], key, k, m[b]);
      }
    }
  }

  lemma {:induction false} KeyOccurs<K>(s: seq<Entry>, key: Entry -> K, k: K)
    ensures k in Keys(s, key) <==> exists e | e in s :: key(e) == k
    decreases |s|
  {
    if s != [] {
      var last := s[|s| - 1];
      assert s == s[..|s| - 1] + [last];
      KeyOccurs(s[..|s| - 1], key, k);
    }
  }

  lemma OnlyMember(s: seq<Entry>, e: Entry)
    requires UniqueNames(s) && e in s
    ensures |s| == 1 <==> !exists d | d in s :: d != e
  {
    var a :| 0 <= a < |s| && s[a] == e;
    if |s| > 1 {
      var b := if a == 0 then 1 else 0;
      assert s[b] in s && s[b] != e;
    }
  }

  function RunFunct3Body(b: Funct3Body, w: Fields): Option<string>
  {
    match b
    case One(name) => Some(name)
    case Funct7Switch(inner) => RunFunct7(inner, w)
  }

  function RunOpcodeBody(b: OpcodeBody, w: Fields): Option<string>
  {
    match b
    case Direct(name) => Some(name)
    case Funct3Switch(inner) => RunFunct3(inner, w)
  }

  ghost predicate HasFunct7(cases: seq<Funct7Case>, w: Fields) { exists c | c in cases :: c.funct7 == Some(w.funct7) }
  ghost predicate HasFunct3(cases: seq<Funct3Case>, w: Fields) { exists c | c in cases :: c.funct3 == Some(w.funct3) }
  ghost predicate HasOpcode(cases: seq<OpcodeCase>, w: Fields) { exists c | c in cases :: c.opcode == w.opcode }

  // A later case is reached when no earlier one has the label.
  lemma {:induction false} LastFunct7(cases: seq<Funct7Case>, c: Funct7Case, w: Fields)
    ensures RunFunct7(cases + [c], w) ==
            if HasFunct7(cases, w) then RunFunct7(cases, w) else if c.funct7 == Some(w.funct7) then Some(c.name)
              else None
    decreases |cases|
  {
    if cases == [] {
      assert cases + [c] == [c];
    } else {
      assert (cases + [c])[1..] == cases[1..] + [c] && cases[0] in cases;
      LastFunct7(cases[1..], c, w);
      assert HasFunct7(cases, w) <==> cases[0].funct7 == Some(w.funct7) || HasFunct7(cases[1..], w) by {
        assert forall d | d in cases :: d == cases[0] || d in cases[1..];
        assert forall d | d in cases[1..] :: d in cases;
      }
    }
  }

  lemma {:induction false} LastFunct3(cases: seq<Funct3Case>, c: Funct3Case, w: Fields)
    ensures RunFunct3(cases + [c], w) ==
            if HasFunct3(cases, w) then RunFunct3(cases, w) else if c.funct3 == Some(w.funct3)
              then RunFunct3Body(c.body, w) else None
    decreases |cases|
  {
    if cases == [] {
      assert cases + [c] == [c];
    } else {
      assert (cases + [c])[1..] == cases[1..] + [c] && cases[0] in cases;
      LastFunct3(cases[1..], c, w);
      assert HasFunct3(cases, w) <==> cases[0].funct3 == Some(w.funct3) || HasFunct3(cases[1..], w) by {
        assert forall d | d in cases :: d == cases[0] || d in cases[1..];
        assert forall d | d in cases[1..] :: d in cases;
      }
    }
  }

  lemma {:induction false} LastOpcode(cases: seq<OpcodeCase>, c: OpcodeCase, w: Fields)
    ensures RunOpcode(cases + [c], w) ==
            if HasOpcode(cases, w) then RunOpcode(cases, w) else if c.opcode == w.opcode then RunOpcodeBody(c.body, w)
              else None
    decreases |cases|
  {
    if cases == [] {
      assert cases + [c] == [c];
    } else {
      assert (cases + [c])[1..] == cases[1..] + [c] && cases[0] in cases;
      LastOpcode(cases[1..], c, w);
      assert HasOpcode(cases, w) <==> cases[0].opcode == w.opcode || HasOpcode(cases[1..], w) by {
        assert forall d | d in cases :: d == cases[0] || d in cases[1..];
        assert forall d | d in cases[1..] :: d in cases;
      }
    }
  }

  // The funct7 switch finds the entry with the word's funct7, if its label is unique.
  lemma {:induction false} Funct7Finds(instrs: seq<Entry>, w: Fields)
    ensures HasFunct7(Funct7Cases(instrs), w) <==> exists e | e in instrs :: e.funct7 == Some(w.funct7)
    ensures !HasFunct7(Funct7Cases(instrs), w) ==> RunFunct7(Funct7Cases(instrs), w) == None
    ensures HasFunct7(Funct7Cases(instrs), w) ==>
              exists e | e in instrs :: e.funct7 == Some(w.funct7) && RunFunct7(Funct7Cases(instrs), w) == Some(e.name)
    decreases |instrs|
  {
    if instrs != [] {
      var e := instrs[|instrs| - 1];
      var rest := instrs[..|instrs| - 1];
      assert instrs == rest + [e];
      Funct7Finds(rest, w);
      var c := Funct7Case(e.funct7, e.name);
      LastFunct7(Funct7Cases(rest), c, w);
      assert Funct7Cases(instrs) == Funct7Cases(rest) + [c];
      assert HasFunct7(Funct7Cases(instrs), w) <==> HasFunct7(Funct7Cases(rest), w) || c.funct7 == Some(w.funct7) by {
        assert c in Funct7Cases(instrs);
        assert forall d | d in Funct7Cases(rest) :: d in Funct7Cases(instrs);
      }
    }
  }

  lemma {:induction false} Funct3Finds(instrs: seq<Entry>, keys: seq<Option<nat>>, w: Fields)
    ensures var cases := Funct3Cases(GroupsOf(instrs, Funct3Of(), keys));
            (HasFunct3(cases, w) <==> Some(w.funct3) in keys) &&
            RunFunct3(cases, w) == if Some(w.funct3) in keys
              then RunFunct3Body(Funct3BodyOf(Members(instrs, Funct3Of(), Some(w.funct3))), w) else None
    decreases |keys|
  {
    if keys != [] {
      var k := keys[|keys| - 1];
      var rest := keys[..|keys| - 1];
      assert keys == rest + [k];
      Funct3Finds(instrs, rest, w);
      var groups := GroupsOf(instrs, Funct3Of(), keys);
      var before := Funct3Cases(GroupsOf(instrs, Funct3Of(), rest));
      var c := Funct3Case(k, Funct3BodyOf(Members(instrs, Funct3Of(), k)));
      assert groups[..|groups| - 1] == GroupsOf(instrs, Funct3Of(), rest);
      assert Funct3Cases(groups) == before + [c];
      LastFunct3(before, c, w);
      assert HasFunct3(before + [c], w) <==> HasFunct3(before, w) || c.funct3 == Some(w.funct3) by {
        assert c in before + [c];
        assert forall d | d in before :: d in before + [c];
      }
    }
  }

  lemma {:induction false} OpcodeFinds(table: seq<Entry>, keys: seq<nat>, w: Fields)
    ensures var cases := OpcodeCases(GroupsOf(table, OpcodeOf(), keys));
            (HasOpcode(cases, w) <==> w.opcode in keys) &&
            RunOpcode(cases, w) == if w.opcode in keys
              then RunOpcodeBody(OpcodeBodyOf(Members(table, OpcodeOf(), w.opcode)), w) else None
    decreases |keys|
  {
    if keys != [] {
      var k := keys[|keys| - 1];
      var rest := keys[..|keys| - 1];
      assert keys == rest + [k];
      OpcodeFinds(table, rest, w);
      var groups := GroupsOf(table, OpcodeOf(), keys);
      var before := OpcodeCases(GroupsOf(table, OpcodeOf(), rest));
      var c := OpcodeCase(k, OpcodeBodyOf(Members(table, OpcodeOf(), k)));
      assert groups[..|groups| - 1] == GroupsOf(table, OpcodeOf(), rest);
      assert OpcodeCases(groups) == before + [c];
      LastOpcode(before, c, w);
      assert HasOpcode(before + [c], w) <==> HasOpcode(before, w) || c.opcode == w.opcode by {
        assert c in before + [c];
        assert forall d | d in before :: d in before + [c];
      }
    }
  }

  function SameOpcode(table: seq<Entry>, w: Fields): seq<Entry> { Members(table, OpcodeOf(), w.opcode) }

  function SameFunct3(table: seq<Entry>, w: Fields): seq<Entry>
  {
    Members(SameOpcode(table, w), Funct3Of(), Some(w.funct3))
  }

  lemma InSame(table: seq<Entry>, w: Fields, e: Entry)
    ensures e in SameOpcode(table, w) <==> e in table && e.opcode == w.opcode
    ensures e in SameFunct3(table, w) <==> e in table && e.opcode == w.opcode && e.funct3 == Some(w.funct3)
  {
    InMembers(table, OpcodeOf(), w.opcode, e);
    InMembers(SameOpcode(table, w), Funct3Of(), Some(w.funct3), e);
  }

  // Dispatch by the groups alone.
  function ByGroups(table: seq<Entry>, w: Fields): Option<string>
  {
    var g, h := SameOpcode(table, w), SameFunct3(table, w);
    if |g| <= 1 then (if g == [] then None else Some(g[0].name))
    else if |h| <= 1 then (if h == [] then None else Some(h[0].name))
    else RunFunct7(Funct7Cases(h), w)
  }

  lemma DispatchByGroups(table: seq<Entry>, w: Fields)
    ensures Dispatch(table, w) == ByGroups(table, w)
  {
    hide Funct3Cases;
    var g := SameOpcode(table, w);
    OpcodeFinds(table, Keys(table, OpcodeOf()), w);
    KeyInGroup(table, OpcodeOf(), w.opcode);
    if |g| > 1 {
      Funct3Finds(g, Keys(g, Funct3Of()), w);
      KeyInGroup(g, Funct3Of(), Some(w.funct3));
    }
  }

  lemma KeyInGroup<K>(s: seq<Entry>, key: Entry -> K, k: K)
    ensures k in Keys(s, key) <==> Members(s, key, k) != []
  {
    KeyOccurs(s, key, k);
    var m := Members(s, key, k);
    if m != [] {
      InMembers(s, key, k, m[0]);
    }
    if e :| e in s && key(e) == k {
      InMembers(s, key, k, e);
    }
  }

  lemma SoleInOpcode(table: seq<Entry>, w: Fields, e: Entry)
    requires UniqueNames(table) && e in table && e.opcode == w.opcode
    ensures e in SameOpcode(table, w) && (|SameOpcode(table, w)| == 1 <==> !SharesOpcode(table, e))
  {
    InSame(table, w, e);
    SameOpcodeDistinct(table, w);
    OnlyMember(SameOpcode(table, w), e);
    forall d
      ensures d in SameOpcode(table, w) <==> d in table && d.opcode == w.opcode
    {
      InSame(table, w, d);
    }
  }

  lemma SoleInFunct3(table: seq<Entry>, w: Fields, e: Entry)
    requires UniqueNames(table) && e in table && e.opcode == w.opcode && e.funct3 == Some(w.funct3)
    ensures e in SameFunct3(table, w) && (|SameFunct3(table, w)| == 1 <==> !SharesFunct3(table, e))
  {
    InSame(table, w, e);
    SameOpcodeDistinct(table, w);
    OnlyMember(SameFunct3(table, w), e);
    forall d
      ensures d in SameFunct3(table, w) <==> d in table && d.opcode == w.opcode && d.funct3 == Some(w.funct3)
    {
      InSame(table, w, d);
    }
  }

  lemma SameOpcodeDistinct(table: seq<Entry>, w: Fields)
    requires UniqueNames(table)
    ensures UniqueNames(SameOpcode(table, w)) && UniqueNames(SameFunct3(table, w))
  {
    MembersDistinct(table, OpcodeOf(), w.opcode);
    MembersDistinct(SameOpcode(table, w), Funct3Of(), Some(w.funct3));
  }

  lemma Separates(table: seq<Entry>, d: Entry, e: Entry)
    requires WellFormed(table) && d in table && e in table && d != e
    ensures Separable(d, e)
  {
    var a :| 0 <= a < |table| && table[a] == d;
    var b :| 0 <= b < |table| && table[b] == e;
    assert a < b || b < a;
  }

  // A word with the tested fields of an entry is dispatched to it.
  lemma TestedIsDispatched(table: seq<Entry>, e: Entry, w: Fields)
    requires WellFormed(table) && e in table && Tested(table, e, w)
    ensures Dispatch(table, w) == Some(e.name)
  {
    hide SameFunct3, SharesOpcode, SharesFunct3;
    DispatchByGroups(table, w);
    SoleInOpcode(table, w, e);
    if SharesOpcode(table, e) {
      SoleInFunct3(table, w, e);
      if SharesFunct3(table, e) {
        OnlyThatFunct7(table, e, w);
      }
    }
  }

  lemma OnlyThatFunct7(table: seq<Entry>, e: Entry, w: Fields)
    requires WellFormed(table) && e in SameFunct3(table, w) && e.funct7 == Some(w.funct7)
    ensures RunFunct7(Funct7Cases(SameFunct3(table, w)), w) == Some(e.name)
  {
    var h := SameFunct3(table, w);
    Funct7Finds(h, w);
    var d :| d in h && d.funct7 == Some(w.funct7) && RunFunct7(Funct7Cases(h), w) == Some(d.name);
    InSame(table, w, d);
    InSame(table, w, e);
    if d != e {
      Separates(table, d, e);
    }
  }

  // And only such words are.
  lemma DispatchedIsTested(table: seq<Entry>, w: Fields) returns (e: Entry)
    requires WellFormed(table) && Dispatch(table, w).Some?
    ensures e in table && Tested(table, e, w) && Dispatch(table, w) == Some(e.name)
  {
    DispatchByGroups(table, w);
    var g, h := SameOpcode(table, w), SameFunct3(table, w);
    if |g| == 1 {
      e := g[0];
      InSame(table, w, e);
      SoleInOpcode(table, w, e);
      SharingIsNested(table, e);
    } else if |h| == 1 {
      e := h[0];
      InSame(table, w, e);
      SoleInFunct3(table, w, e);
    } else {
      Funct7Finds(h, w);
      e :| e in h && e.funct7 == Some(w.funct7) && RunFunct7(Funct7Cases(h), w) == Some(e.name);
      InSame(table, w, e);
    }
  }

  lemma SharingIsNested(table: seq<Entry>, e: Entry)
    ensures SharesFunct3(table, e) ==> SharesOpcode(table, e)
  {}

  // A word that matches all declared fields of an entry is dispatched to it, whatever the table
  // order; so an unknown word matches no entry.
  lemma MatchIsDispatched(table: seq<Entry>, e: Entry, w: Fields)
    requires WellFormed(table) && e in table && Matches(e, w)
    ensures Dispatch(table, w) == Some(e.name)
  {
    if d :| d in table && d != e && d.opcode == e.opcode {
      Separates(table, d, e);
    }
    if d :| d in table && d != e && d.opcode == e.opcode && d.funct3 == e.funct3 {
      Separates(table, d, e);
    }
    TestedIsDispatched(table, e, w);
  }

  // No word matches two entries.
  lemma MatchIsUnique(table: seq<Entry>, d: Entry, e: Entry, w: Fields)
    requires WellFormed(table) && d in table && e in table && Matches(d, w) && Matches(e, w)
    ensures d == e
  {
    if d != e {
      Separates(table, d, e);
    }
  }

  // --- the generator's loops ---

  lemma MembersUnfold<K>(s: seq<Entry>, key: Entry -> K, k: K)
    ensures Members([], key, k) == []
    ensures s != [] ==> Members(s, key, k) == (if key(s[0]) == k then [s[0]] else []) + Members(s[1..], key, k)
  {}

  lemma {:induction false} MembersAppend<K>(s: seq<Entry>, e: Entry, key: Entry -> K, k: K)
    ensures Members(s + [e], key, k) == Members(s, key, k) + if key(e) == k then [e] else []
    decreases |s|
  {
    hide Members;
    var t := s + [e];
    MembersUnfold(s, key, k);
    MembersUnfold(t, key, k);
    if s == [] {
      assert t[1..] == [];
    } else {
      assert t[0] == s[0] && t[1..] == s[1..] + [e];
      MembersAppend(s[1..], e, key, k);
    }
  }

  lemma {:induction false} GroupAt<K>(s: seq<Entry>, key: Entry -> K, keys: seq<K>)
    ensures var g := GroupsOf(s, key, keys);
            |g| == |keys| && forall j | 0 <= j < |keys| :: g[j] == Group(keys[j], Members(s, key, keys[j]))
    decreases |keys|
  {
    if keys != [] {
      GroupAt(s, key, keys[..|keys| - 1]);
    }
  }

  lemma {:induction false} KeysDistinct<K>(s: seq<Entry>, key: Entry -> K)
    ensures forall a, b | 0 <= a < b < |Keys(s, key)| :: Keys(s, key)[a] != Keys(s, key)[b]
    decreases |s|
  {
    if s != [] {
      KeysDistinct(s[..|s| - 1], key);
    }
  }

  lemma KeysOfAppend<K>(s: seq<Entry>, e: Entry, key: Entry -> K)
    ensures Keys(s + [e], key) == if key(e) in Keys(s, key) then Keys(s, key) else Keys(s, key) + [key(e)]
  {
    assert (s + [e])[..|s|] == s;
  }

  lemma NewMember<K>(s: seq<Entry>, e: Entry, key: Entry -> K, j: nat)
    requires j < |Keys(s, key)| && Keys(s, key)[j] == key(e)
    ensures var g := GroupBy(s, key);
            |g| == |Keys(s, key)| && GroupBy(s + [e], key) == g[j := Group(key(e), g[j].members + [e])]
  {
    hide Members, GroupsOf, Keys;
    var keys := Keys(s, key);
    KeysOfAppend(s, e, key);
    GroupAt(s, key, keys);
    GroupAt(s + [e], key, keys);
    KeysDistinct(s, key);
    var g, h := GroupsOf(s, key, keys), GroupsOf(s + [e], key, keys);
    forall i | 0 <= i < |keys|
      ensures h[i] == g[j := Group(key(e), g[j].members + [e])][i]
    {
      MembersAppend(s, e, key, keys[i]);
      assert i < j ==> keys[i] != keys[j];
      assert j < i ==> keys[j] != keys[i];
    }
  }

  lemma NewKey<K>(s: seq<Entry>, e: Entry, key: Entry -> K)
    requires key(e) !in Keys(s, key)
    ensures GroupBy(s + [e], key) == GroupBy(s, key) + [Group(key(e), [e])]
  {
    hide Members, GroupsOf, Keys;
    var keys := Keys(s, key);
    KeysOfAppend(s, e, key);
    GroupAt(s, key, keys);
    GroupAt(s + [e], key, keys + [key(e)]);
    KeyInGroup(s, key, key(e));
    MembersAppend(s, e, key, key(e));
    assert Members(s + [e], key, key(e)) == [e];
    forall i | 0 <= i < |keys|
      ensures Members(s + [e], key, keys[i]) == Members(s, key, keys[i])
    {
      MembersAppend(s, e, key, keys[i]);
    }
  }

  // Ruby's group_by: an insertion-ordered hash from keys to arrays.
  method GroupByKey<K(==)>(s: seq<Entry>, key: Entry -> K) returns (groups: seq<Group<K>>)
    ensures groups == GroupBy(s, key)
  {
    groups := [];
    for i := 0 to |s|
      invariant groups == GroupBy(s[..i], key)
    {
      assert s[..i + 1] == s[..i] + [s[i]];
      GroupAt(s[..i], key, Keys(s[..i], key));
      var k := key(s[i]);
      var j := 0;
      while j < |groups| && groups[j].key != k
        invariant j <= |groups| && forall b | 0 <= b < j :: groups[b].key != k
      {
        j := j + 1;
      }
      if j < |groups| {
        NewMember(s[..i], s[i], key, j);
        groups := groups[j := Group(k, groups[j].members + [s[i]])];
      } else {
        assert k !in Keys(s[..i], key);
        NewKey(s[..i], s[i], key);
        groups := groups + [Group(k, [s[i]])];
      }
    }
    assert s[..|s|] == s;
  }

  // generate_opcode_dispatch: nested each loops over group_by results.
  method GenerateOpcodeDispatch(table: seq<Entry>) returns (dispatch: seq<OpcodeCase>)
    ensures dispatch == Generate(table)
  {
    hide Members, GroupsOf, Keys, Funct3Cases;
    var groups := GroupByKey(table, OpcodeOf());
    dispatch := [];
    for i := 0 to |groups|
      invariant dispatch == OpcodeCases(groups[..i])
    {
      assert groups[..i + 1][..i] == groups[..i];
      var instructions := groups[i].members;
      var body;
      if |instructions| == 1 {
        body := Direct(instructions[0].name);
      } else {
        var cases := Funct3Dispatch(instructions);
        body := Funct3Switch(cases);
      }
      dispatch := dispatch + [OpcodeCase(groups[i].key, body)];
    }
    assert groups[..|groups|] == groups;
  }

  method Funct3Dispatch(instructions: seq<Entry>) returns (cases: seq<Funct3Case>)
    ensures cases == Funct3Cases(GroupBy(instructions, Funct3Of()))
  {
    hide Members, GroupsOf, Keys, Funct7Cases;
    var groups := GroupByKey(instructions, Funct3Of());
    cases := [];
    for i := 0 to |groups|
      invariant cases == Funct3Cases(groups[..i])
    {
      assert groups[..i + 1][..i] == groups[..i];
      var instrs := groups[i].members;
      var body;
      if |instrs| == 1 {
        body := One(instrs[0].name);
      } else {
        var inner := Funct7Dispatch(instrs);
        body := Funct7Switch(inner);
      }
      cases := cases + [Funct3Case(groups[i].key, body)];
    }
    assert groups[..|groups|] == groups;
  }

  method Funct7Dispatch(instrs: seq<Entry>) returns (cases: seq<Funct7Case>)
    ensures cases == Funct7Cases(instrs)
  {
    cases := [];
    for j := 0 to |instrs|
      invariant cases == Funct7Cases(instrs[..j])
    {
      assert instrs[..j + 1][..j] == instrs[..j];
      cases := cases + [Funct7Case(instrs[j].funct7, instrs[j].name)];
    }
    assert instrs[..|instrs|] == instrs;
  }
}
