/** What the canonical text identifies: normal forms, whatever the insertion order. */
module CanonicalNormal {
  import opened Wrappers
  import opened Strings
  import opened Canonical
  import opened CanonicalReader

  /** Two accepted values have one canonical text exactly when their normal forms are equal. */
  lemma SameTextIffSameNormalForm(u: Value, v: Value, nfc: string -> string)
    requires CanonicalJson(u, nfc).Ok? && CanonicalJson(v, nfc).Ok?
    ensures CanonicalJson(u, nfc) == CanonicalJson(v, nfc) <==> Normalize(u, nfc) == Normalize(v, nfc)
  {
    PrinterIsInjective(Normalize(u, nfc).value, Normalize(v, nfc).value);
  }

  // ---- Mappings

  function NormalKeys(entries: seq<Entry>, nfc: string -> string): set<string> {
    set e | e in entries && e.key.Name? :: nfc(e.key.name)
  }

  ghost predicate MembersNormalize(entries: seq<Entry>, nfc: string -> string) {
    forall e | e in entries :: e.key.Name? && Normalize(e.value, nfc).Ok?
  }

  /** The members of `m` are those of the entries, each key with its own entry's value. */
  ghost predicate Carries(m: map<string, Json>, entries: seq<Entry>, nfc: string -> string)
    requires MembersNormalize(entries, nfc)
  {
    forall e | e in entries :: nfc(e.key.name) in m && m[nfc(e.key.name)] == Normalize(e.value, nfc).value
  }

  lemma KeysOfRest(entries: seq<Entry>, nfc: string -> string)
    requires entries != [] && entries[0].key.Name?
    ensures NormalKeys(entries, nfc) == {nfc(entries[0].key.name)} + NormalKeys(entries[1..], nfc)
  {
  }

  lemma {:induction false} AtMostOneKeyEach(entries: seq<Entry>, nfc: string -> string)
    ensures |NormalKeys(entries, nfc)| <= |entries|
  {
    if entries != [] {
      AtMostOneKeyEach(entries[1..], nfc);
      if entries[0].key.Name? {
        KeysOfRest(entries, nfc);
      } else {
        assert entries == [entries[0]] + entries[1..];
        assert NormalKeys(entries, nfc) == NormalKeys(entries[1..], nfc);
      }
    } else {
      assert NormalKeys(entries, nfc) == {};
    }
  }

  /** The keys of the rest and the first key count up to the entries only if they are all different. */
  lemma DistinctKeys(entries: seq<Entry>, nfc: string -> string, taken: set<string>)
    requires entries != [] && entries[0].key.Name?
    ensures var key, rest := nfc(entries[0].key.name), NormalKeys(entries[1..], nfc);
            NormalKeys(entries, nfc) !! taken && |NormalKeys(entries, nfc)| == |entries|
            <==> key !in taken && rest !! (taken + {key}) && |rest| == |entries| - 1
  {
    AtMostOneKeyEach(entries[1..], nfc);
    KeysOfRest(entries, nfc);
    var key, rest := nfc(entries[0].key.name), NormalKeys(entries[1..], nfc);
    hide NormalKeys;
    if key in rest {
      assert {key} + rest == rest;
    }
  }

  lemma MembersOfRest(entries: seq<Entry>, nfc: string -> string)
    requires entries != []
    ensures MembersNormalize(entries, nfc)
       <==> entries[0].key.Name? && Normalize(entries[0].value, nfc).Ok? && MembersNormalize(entries[1..], nfc)
  {
  }

  /** Folding the entries into `m` succeeds exactly when every member normalises and no two keys meet. */
  lemma {:induction false} EntriesNormalize(entries: seq<Entry>, nfc: string -> string, m: map<string, Json>)
    ensures NormalizeEntries(entries, nfc, m).Ok?
       <==> && MembersNormalize(entries, nfc) && NormalKeys(entries, nfc) !! m.Keys
            && |NormalKeys(entries, nfc)| == |entries|
  {
    hide Normalize, NormalKeys, MembersNormalize;
    if entries == [] {
      assert MembersNormalize(entries, nfc) && NormalKeys(entries, nfc) == {} by {
        NothingToNormalize(entries, nfc);
      }
    } else {
      var e, rest := entries[0], entries[1..];
      MembersOfRest(entries, nfc);
      if e.key.Name? {
        var key := nfc(e.key.name);
        DistinctKeys(entries, nfc, m.Keys);
        if key !in m && Normalize(e.value, nfc).Ok? {
          var extended := m[key := Normalize(e.value, nfc).value];
          assert extended.Keys == m.Keys + {key};
          EntriesNormalize(rest, nfc, extended);
        }
      }
    }
  }

  lemma NothingToNormalize(entries: seq<Entry>, nfc: string -> string)
    requires entries == []
    ensures MembersNormalize(entries, nfc) && NormalKeys(entries, nfc) == {}
  {
  }

  /** A successful fold adds exactly those members. */
  lemma {:induction false} EntriesAdded(entries: seq<Entry>, nfc: string -> string, m: map<string, Json>)
    requires NormalizeEntries(entries, nfc, m).Ok?
    ensures var all := NormalizeEntries(entries, nfc, m).value;
            && MembersNormalize(entries, nfc)
            && all.Keys == m.Keys + NormalKeys(entries, nfc)
            && Carries(all, entries, nfc)
            && forall k | k in m :: k in all && all[k] == m[k]
  {
    hide Normalize;
    if entries == [] {
      NothingToNormalize(entries, nfc);
    } else {
      var e, rest := entries[0], entries[1..];
      assert entries == [e] + rest;
      var extended := m[nfc(e.key.name) := NormalizeMember(e, nfc).value];
      EntriesAdded(rest, nfc, extended);
      KeysOfRest(entries, nfc);
      MembersOfRest(entries, nfc);
      hide NormalKeys;
      var all := NormalizeEntries(entries, nfc, m).value;
      assert nfc(e.key.name) in extended;
    }
  }

  lemma SameElements(a: seq<Entry>, b: seq<Entry>)
    requires multiset(a) == multiset(b)
    ensures |a| == |b| && forall e :: e in a <==> e in b
  {
    assert |a| == |multiset(a)| && |b| == |multiset(b)|;
    assert forall e :: e in a <==> e in multiset(a);
    assert forall e :: e in b <==> e in multiset(b);
  }

  lemma MappingNormalForm(entries: seq<Entry>, nfc: string -> string)
    ensures Normalize(Mapping(entries), nfc)
         == match NormalizeEntries(entries, nfc, map[]) case Ok(m) => Ok(Obj(m)) case Err(e) => Err(e)
  {
  }

  /** What is wrong with an entry behind those already accepted into `m`, if anything. */
  function Fault(entry: Entry, nfc: string -> string, m: map<string, Json>): Option<Error> {
    if entry.key.NotAString? then Some(KeyNotAString)
    else if nfc(entry.key.name) in m then Some(DuplicateKey)
    else match Normalize(entry.value, nfc) case Ok(_) => None case Err(e) => Some(e)
  }

  /** A mapping is refused for its first faulty entry: a key that is no string, else a key already there, else
      what its value is refused for. */
  lemma {:induction false} FirstFaultDecides(entries: seq<Entry>, i: nat, nfc: string -> string, m: map<string, Json>)
    requires i < |entries| && NormalizeEntries(entries[..i], nfc, m).Ok?
    requires Fault(entries[i], nfc, NormalizeEntries(entries[..i], nfc, m).value).Some?
    ensures NormalizeEntries(entries, nfc, m)
         == Err(Fault(entries[i], nfc, NormalizeEntries(entries[..i], nfc, m).value).value)
    decreases i
  {
    hide Normalize;
    if i > 0 {
      var e, rest := entries[0], entries[1..];
      assert entries[..i][0] == e && entries[..i][1..] == rest[..i - 1];
      FirstFaultDecides(rest, i - 1, nfc, m[nfc(e.key.name) := NormalizeMember(e, nfc).value]);
    }
  }

  // ---- Insertion order, at every depth

  lemma OuterOrderIsIrrelevant(a: seq<Entry>, b: seq<Entry>, nfc: string -> string)
    requires multiset(a) == multiset(b)
    ensures Normalize(Mapping(a), nfc).Ok? <==> Normalize(Mapping(b), nfc).Ok?
    ensures Normalize(Mapping(a), nfc).Ok? ==> Normalize(Mapping(a), nfc) == Normalize(Mapping(b), nfc)
  {
    hide Normalize, Print;
    SameElements(a, b);
    EntriesNormalize(a, nfc, map[]);
    EntriesNormalize(b, nfc, map[]);
    assert NormalKeys(a, nfc) == NormalKeys(b, nfc);
    MappingNormalForm(a, nfc);
    MappingNormalForm(b, nfc);
    if Normalize(Mapping(a), nfc).Ok? {
      EntriesAdded(a, nfc, map[]);
      EntriesAdded(b, nfc, map[]);
      var x, y := NormalizeEntries(a, nfc, map[]).value, NormalizeEntries(b, nfc, map[]).value;
      forall k | k in x
        ensures x[k] == y[k]
      {
        var e :| e in a && e.key.Name? && nfc(e.key.name) == k;
      }
      assert x == y;
    }
  }

  predicate SameKey(k: Key, l: Key, nfc: string -> string) {
    if k.Name? && l.Name? then nfc(k.name) == nfc(l.name) else k == l
  }

  /** The same value up to NFC and to the order of the members of every mapping in it: lists agree position
      by position, mappings agree with some permutation of each other. */
  ghost predicate Alike(u: Value, v: Value, nfc: string -> string)
    decreases u
  {
    match u
    case Text(text) => v.Text? && nfc(text) == nfc(v.text)
    case List(values) =>
      v.List? && |values| == |v.values| && forall i | 0 <= i < |values| :: Alike(values[i], v.values[i], nfc)
    case Mapping(entries) =>
      v.Mapping? && exists reordered: seq<Entry> ::
        && multiset(reordered) == multiset(v.entries) && |reordered| == |entries|
        && forall i | 0 <= i < |entries| ::
             SameKey(entries[i].key, reordered[i].key, nfc) && Alike(entries[i].value, reordered[i].value, nfc)
    case _ => u == v
  }

  /** In particular, permuting the members of a mapping gives an alike one. */
  lemma {:induction false} PermutedAreAlike(u: Value, v: Value, nfc: string -> string)
    requires u == v || (u.Mapping? && v.Mapping? && multiset(u.entries) == multiset(v.entries))
    ensures Alike(u, v, nfc)
    decreases u
  {
    match u
    case List(values) =>
      forall i | 0 <= i < |values|
        ensures Alike(values[i], values[i], nfc)
      {
        PermutedAreAlike(values[i], values[i], nfc);
      }
    case Mapping(entries) =>
      forall i | 0 <= i < |entries|
        ensures Alike(entries[i].value, entries[i].value, nfc)
      {
        PermutedAreAlike(entries[i].value, entries[i].value, nfc);
      }
      assert |entries| == |multiset(entries)| && multiset(entries) == multiset(v.entries);
    case _ =>
  }

  /** Accepted alike, and with the same normal form. */
  ghost predicate Agree(u: Value, v: Value, nfc: string -> string) {
    (Normalize(u, nfc).Ok? <==> Normalize(v, nfc).Ok?)
    && (Normalize(u, nfc).Ok? ==> Normalize(u, nfc) == Normalize(v, nfc))
  }

  lemma {:induction false} ListsAgree(a: seq<Value>, b: seq<Value>, nfc: string -> string)
    requires |a| == |b| && forall i | 0 <= i < |a| :: Agree(a[i], b[i], nfc)
    ensures NormalizeAll(a, nfc).Ok? <==> NormalizeAll(b, nfc).Ok?
    ensures NormalizeAll(a, nfc).Ok? ==> NormalizeAll(a, nfc) == NormalizeAll(b, nfc)
  {
    if a != [] {
      assert Agree(a[0], b[0], nfc);
      hide Normalize;
      ListsAgree(a[1..], b[1..], nfc);
    }
  }

  lemma {:induction false} EntriesAgree(a: seq<Entry>, b: seq<Entry>, nfc: string -> string, m: map<string, Json>)
    requires |a| == |b|
    requires forall i | 0 <= i < |a| :: SameKey(a[i].key, b[i].key, nfc) && Agree(a[i].value, b[i].value, nfc)
    ensures NormalizeEntries(a, nfc, m).Ok? <==> NormalizeEntries(b, nfc, m).Ok?
    ensures NormalizeEntries(a, nfc, m).Ok? ==> NormalizeEntries(a, nfc, m) == NormalizeEntries(b, nfc, m)
  {
    if a != [] {
      hide Normalize;
      assert SameKey(a[0].key, b[0].key, nfc) && Agree(a[0].value, b[0].value, nfc);
      if a[0].key.Name? && Normalize(a[0].value, nfc).Ok? {
        EntriesAgree(a[1..], b[1..], nfc, m[nfc(a[0].key.name) := Normalize(a[0].value, nfc).value]);
      }
    }
  }

  lemma {:induction false} AlikeAgree(u: Value, v: Value, nfc: string -> string)
    requires Alike(u, v, nfc)
    ensures Agree(u, v, nfc)
    decreases u
  {
    match u
    case List(values) =>
      forall i | 0 <= i < |values|
        ensures Agree(values[i], v.values[i], nfc)
      {
        AlikeAgree(values[i], v.values[i], nfc);
      }
      hide Agree, Alike;
      ListsAgree(values, v.values, nfc);
      ListNormalForm(values, nfc);
      ListNormalForm(v.values, nfc);
      AgreeIs(u, v, nfc);
    case Mapping(entries) =>
      var reordered: seq<Entry> :|
        && multiset(reordered) == multiset(v.entries) && |reordered| == |entries|
        && forall i | 0 <= i < |entries| ::
             SameKey(entries[i].key, reordered[i].key, nfc) && Alike(entries[i].value, reordered[i].value, nfc);
      forall i | 0 <= i < |entries|
        ensures Agree(entries[i].value, reordered[i].value, nfc)
      {
        AlikeAgree(entries[i].value, reordered[i].value, nfc);
      }
      hide Agree, Alike;
      EntriesAgree(entries, reordered, nfc, map[]);
      OuterOrderIsIrrelevant(reordered, v.entries, nfc);
      MappingNormalForm(entries, nfc);
      MappingNormalForm(reordered, nfc);
      AgreeIs(u, v, nfc);
    case _ =>
  }

  lemma AgreeIs(u: Value, v: Value, nfc: string -> string)
    ensures Agree(u, v, nfc) <==>
            && (Normalize(u, nfc).Ok? <==> Normalize(v, nfc).Ok?)
            && (Normalize(u, nfc).Ok? ==> Normalize(u, nfc) == Normalize(v, nfc))
  {
  }

  lemma ListNormalForm(values: seq<Value>, nfc: string -> string)
    ensures Normalize(List(values), nfc)
         == match NormalizeAll(values, nfc) case Ok(items) => Ok(Arr(items)) case Err(e) => Err(e)
  {
  }

  /** The normal form of a list holds those of its values. */
  lemma {:induction false} ItemsOfList(values: seq<Value>, nfc: string -> string)
    requires NormalizeAll(values, nfc).Ok?
    ensures |NormalizeAll(values, nfc).value| == |values|
    ensures forall i | 0 <= i < |values| :: Normalize(values[i], nfc) == Ok(NormalizeAll(values, nfc).value[i])
  {
    if values != [] {
      hide Normalize;
      ItemsOfList(values[1..], nfc);
      var items := NormalizeAll(values, nfc).value;
      forall i | 0 <= i < |values|
        ensures Normalize(values[i], nfc) == Ok(items[i])
      {
        if i > 0 {
          assert values[i] == values[1..][i - 1];
        }
      }
    }
  }

  ghost predicate SameMember(e: Entry, g: Entry, nfc: string -> string) {
    && e.key.Name? && g.key.Name? && nfc(e.key.name) == nfc(g.key.name)
    && Normalize(e.value, nfc) == Normalize(g.value, nfc)
  }

  lemma KeysWithout(entries: seq<Entry>, j: nat, nfc: string -> string)
    requires j < |entries| && entries[j].key.Name? && |NormalKeys(entries, nfc)| == |entries|
    ensures var rest := entries[..j] + entries[j + 1..];
            && multiset(entries) == multiset{entries[j]} + multiset(rest)
            && NormalKeys(rest, nfc) == NormalKeys(entries, nfc) - {nfc(entries[j].key.name)}
            && |NormalKeys(rest, nfc)| == |rest|
            && forall e | e in rest :: e in entries
  {
    var key, rest := nfc(entries[j].key.name), entries[..j] + entries[j + 1..];
    assert entries == entries[..j] + [entries[j]] + entries[j + 1..];
    AtMostOneKeyEach(rest, nfc);
    assert NormalKeys(entries, nfc) == {key} + NormalKeys(rest, nfc);
    hide NormalKeys;
    TakenOut(key, NormalKeys(rest, nfc));
  }

  lemma TakenOut(key: string, rest: set<string>)
    ensures |{key} + rest| <= 1 + |rest|
    ensures |{key} + rest| > |rest| ==> rest == {key} + rest - {key} && |{key} + rest| == 1 + |rest|
  {
    if key in rest {
      assert {key} + rest == rest;
    }
  }

  lemma PlaceOf(a: seq<Entry>, b: seq<Entry>, nfc: string -> string) returns (j: nat)
    requires a != [] && a[0].key.Name? && NormalKeys(a, nfc) == NormalKeys(b, nfc)
    ensures j < |b| && b[j].key.Name? && nfc(b[j].key.name) == nfc(a[0].key.name) && SameKey(a[0].key, b[j].key, nfc)
  {
    var key := nfc(a[0].key.name);
    assert key in NormalKeys(b, nfc);
    j :| 0 <= j < |b| && b[j].key.Name? && nfc(b[j].key.name) == key;
  }

  ghost predicate SameWhereKeysMeet(a: seq<Entry>, b: seq<Entry>, nfc: string -> string) {
    && (forall e | e in a :: e.key.Name?)
    && forall e, g | e in a && g in b && SameKey(e.key, g.key, nfc) :: SameMember(e, g, nfc)
  }

  ghost predicate LineUp(a: seq<Entry>, b: seq<Entry>, nfc: string -> string) {
    |a| == |b| && forall i | 0 <= i < |a| :: SameMember(a[i], b[i], nfc)
  }

  lemma OneMoreInLine(e: Entry, g: Entry, a: seq<Entry>, b: seq<Entry>, nfc: string -> string)
    requires SameMember(e, g, nfc) && LineUp(a, b, nfc)
    ensures LineUp([e] + a, [g] + b, nfc)
  {
    hide SameMember;
  }

  lemma KeysMeetFewer(a: seq<Entry>, b: seq<Entry>, x: seq<Entry>, y: seq<Entry>, nfc: string -> string)
    requires SameWhereKeysMeet(a, b, nfc) && (forall e | e in x :: e in a) && forall g | g in y :: g in b
    ensures SameWhereKeysMeet(x, y, nfc)
  {
    hide SameKey, SameMember;
  }

  /** Entries with the same distinct keys and the same member under each can be lined up. */
  lemma {:induction false} LinedUp(a: seq<Entry>, b: seq<Entry>, nfc: string -> string) returns (reordered: seq<Entry>)
    requires SameWhereKeysMeet(a, b, nfc)
    requires NormalKeys(a, nfc) == NormalKeys(b, nfc) && |NormalKeys(a, nfc)| == |a| == |b|
    ensures multiset(reordered) == multiset(b) && LineUp(a, reordered, nfc)
    decreases |a|
  {
    if a == [] {
      reordered := [];
    } else {
      assert a[0].key.Name?;
      var j := PlaceOf(a, b, nfc);
      assert SameMember(a[0], b[j], nfc);
      hide SameMember, NormalKeys, SameKey, SameWhereKeysMeet, LineUp;
      KeysWithout(a, 0, nfc);
      KeysWithout(b, j, nfc);
      assert a[..0] + a[0 + 1..] == a[1..] && a == [a[0]] + a[1..];
      KeysMeetFewer(a, b, a[1..], b[..j] + b[j + 1..], nfc);
      var rest := LinedUp(a[1..], b[..j] + b[j + 1..], nfc);
      OneMoreInLine(a[0], b[j], a[1..], rest, nfc);
      reordered := [b[j]] + rest;
    }
  }

  /** Values with one normal form are alike. */
  lemma {:induction false} AgreeingAreAlike(u: Value, v: Value, nfc: string -> string)
    requires Normalize(u, nfc).Ok? && Normalize(u, nfc) == Normalize(v, nfc)
    ensures Alike(u, v, nfc)
    decreases u
  {
    match u
    case List(values) =>
      ItemsOfList(values, nfc);
      ItemsOfList(v.values, nfc);
      hide Normalize;
      forall i | 0 <= i < |values|
        ensures Alike(values[i], v.values[i], nfc)
      {
        AgreeingAreAlike(values[i], v.values[i], nfc);
      }
    case Mapping(entries) =>
      MappingNormalForm(entries, nfc);
      MappingNormalForm(v.entries, nfc);
      hide Normalize, NormalizeEntries;
      var reordered := SameMembersLineUp(entries, v.entries, nfc);
      forall i | 0 <= i < |entries|
        ensures SameKey(entries[i].key, reordered[i].key, nfc) && Alike(entries[i].value, reordered[i].value, nfc)
      {
        assert SameMember(entries[i], reordered[i], nfc);
        assert entries[i] in entries;
        AgreeingAreAlike(entries[i].value, reordered[i].value, nfc);
      }
    case _ =>
  }

  lemma SameMembersLineUp(a: seq<Entry>, b: seq<Entry>, nfc: string -> string) returns (reordered: seq<Entry>)
    requires NormalizeEntries(a, nfc, map[]).Ok? && NormalizeEntries(a, nfc, map[]) == NormalizeEntries(b, nfc, map[])
    ensures multiset(reordered) == multiset(b) && LineUp(a, reordered, nfc)
    ensures forall e | e in a :: Normalize(e.value, nfc).Ok?
  {
    hide Normalize, NormalizeEntries;
    EntriesNormalize(a, nfc, map[]);
    EntriesNormalize(b, nfc, map[]);
    EntriesAdded(a, nfc, map[]);
    EntriesAdded(b, nfc, map[]);
    hide NormalKeys;
    reordered := LinedUp(a, b, nfc);
  }

  /** The order in which members were inserted into any mapping, at any depth, changes neither acceptance nor
      text, and nothing but that order and NFC is lost: two accepted values have one text exactly when they
      are alike. */
  lemma InsertionOrderIsIrrelevant(u: Value, v: Value, nfc: string -> string)
    ensures Alike(u, v, nfc) ==> (CanonicalJson(u, nfc).Ok? <==> CanonicalJson(v, nfc).Ok?)
    ensures CanonicalJson(u, nfc).Ok? && CanonicalJson(v, nfc).Ok? ==>
              (CanonicalJson(u, nfc) == CanonicalJson(v, nfc) <==> Alike(u, v, nfc))
  {
    hide Normalize, Alike;
    if Alike(u, v, nfc) {
      AlikeAgree(u, v, nfc);
    }
    if CanonicalJson(u, nfc).Ok? && CanonicalJson(v, nfc).Ok? {
      SameTextIffSameNormalForm(u, v, nfc);
      if Normalize(u, nfc) == Normalize(v, nfc) {
        AgreeingAreAlike(u, v, nfc);
      }
    }
  }

  // ---- Normal forms are fixed points

  predicate IsNormal(j: Json, nfc: string -> string) {
    match j
    case Str(s) => nfc(s) == s
    case Arr(items) => forall item | item in items :: IsNormal(item, nfc)
    case Obj(members) => forall k | k in members :: nfc(k) == k && IsNormal(members[k], nfc)
    case _ => true
  }

  ghost predicate IsNormalization(nfc: string -> string) {
    forall s :: nfc(nfc(s)) == nfc(s)
  }

  lemma {:induction false} NormalizeIsNormal(v: Value, nfc: string -> string)
    requires IsNormalization(nfc) && Normalize(v, nfc).Ok?
    ensures IsNormal(Normalize(v, nfc).value, nfc)
    decreases v
  {
    match v
    case List(values) => AllNormal(values, nfc);
    case Mapping(entries) => EntriesNormal(entries, nfc, map[]);
    case _ =>
  }

  lemma {:induction false} AllNormal(values: seq<Value>, nfc: string -> string)
    requires IsNormalization(nfc) && NormalizeAll(values, nfc).Ok?
    ensures forall item | item in NormalizeAll(values, nfc).value :: IsNormal(item, nfc)
    decreases values
  {
    if values != [] {
      NormalizeIsNormal(values[0], nfc);
      AllNormal(values[1..], nfc);
    }
  }

  lemma {:induction false} EntriesNormal(entries: seq<Entry>, nfc: string -> string, m: map<string, Json>)
    requires IsNormalization(nfc) && NormalizeEntries(entries, nfc, m).Ok?
    requires forall k | k in m :: nfc(k) == k && IsNormal(m[k], nfc)
    ensures IsNormal(Obj(NormalizeEntries(entries, nfc, m).value), nfc)
    decreases entries
  {
    if entries != [] {
      MemberNormal(entries[0], nfc);
      EntriesNormal(entries[1..], nfc, m[nfc(entries[0].key.name) := NormalizeMember(entries[0], nfc).value]);
    }
  }

  lemma MemberNormal(entry: Entry, nfc: string -> string)
    requires IsNormalization(nfc) && NormalizeMember(entry, nfc).Ok?
    ensures IsNormal(NormalizeMember(entry, nfc).value, nfc)
    decreases entry
  {
    NormalizeIsNormal(entry.value, nfc);
  }

  /** A normal form passed back as a value, its members in ascending order. */
  function Embed(j: Json): Value
    decreases j, 0
  {
    match j
    case Null => Nothing
    case Bool(b) => Flag(b)
    case Int(n) => Number(n)
    case Str(s) => Text(s)
    case Arr(items) => List(seq(|items|, i requires 0 <= i < |items| => Embed(items[i])))
    case Obj(members) => Mapping(EmbedMembers(j, Sorted(members.Keys)))
  }

  function EmbedMembers(j: Json, keys: seq<string>): (entries: seq<Entry>)
    requires j.Obj? && forall k | k in keys :: k in j.members
    ensures |entries| == |keys|
    decreases j, 0, |keys|
  {
    if keys == [] then []
    else [Entry(Name(keys[0]), Embed(j.members[keys[0]]))] + EmbedMembers(j, keys[1..])
  }

  lemma {:induction false} EmbeddedNormalizes(j: Json, nfc: string -> string)
    requires IsNormal(j, nfc)
    ensures Normalize(Embed(j), nfc) == Ok(j)
    decreases j, 1
  {
    match j
    case Arr(items) =>
      EmbeddedItems(j, 0, nfc);
      assert Embed(j).values[0..] == Embed(j).values && items[0..] == items;
    case Obj(members) =>
      var keys := Sorted(members.Keys);
      assert Embed(j) == Mapping(EmbedMembers(j, keys));
      AllMembers(members);
      hide Embed, EmbedMembers, Normalize, IsNormal, Restrict;
      EmbeddedMembers(j, keys, nfc, map[]);
      MappingNormalForm(EmbedMembers(j, keys), nfc);
    case _ =>
  }

  lemma {:induction false} EmbeddedItems(j: Json, i: nat, nfc: string -> string)
    requires j.Arr? && i <= |j.items| && IsNormal(j, nfc)
    ensures NormalizeAll(Embed(j).values[i..], nfc) == Ok(j.items[i..])
    decreases j, 0, |j.items| - i
  {
    if i == |j.items| {
      assert Embed(j).values[i..] == [] && j.items[i..] == [];
    } else {
      assert j.items[i] in j.items;
      EmbeddedNormalizes(j.items[i], nfc);
      EmbeddedItems(j, i + 1, nfc);
      assert Embed(j).values[i..][1..] == Embed(j).values[i + 1..];
      assert j.items[i..] == [j.items[i]] + j.items[i + 1..];
    }
  }

  lemma AddFirst(members: map<string, Json>, keys: seq<string>, m: map<string, Json>)
    requires keys != [] && (forall k | k in keys :: k in members) && keys[0] !in keys[1..]
    ensures forall k | k in keys[1..] :: k in members
    ensures m[keys[0] := members[keys[0]]] + Restrict(members, keys[1..]) == m + Restrict(members, keys)
  {
    assert keys == [keys[0]] + keys[1..];
  }

  lemma {:induction false} EmbeddedMembers(j: Json, keys: seq<string>, nfc: string -> string, m: map<string, Json>)
    requires j.Obj? && IsNormal(j, nfc) && IsSorted(keys)
    requires forall k | k in keys :: k in j.members && k !in m
    ensures NormalizeEntries(EmbedMembers(j, keys), nfc, m) == Ok(m + Restrict(j.members, keys))
    decreases j, 0, |keys|
  {
    if keys == [] {
      assert m + Restrict(j.members, keys) == m;
    } else {
      var key := keys[0];
      EmbeddedNormalizes(j.members[key], nfc);
      FirstIsNotInRest(keys);
      EmbeddedMembers(j, keys[1..], nfc, m[key := j.members[key]]);
      AddFirst(j.members, keys, m);
      assert EmbedMembers(j, keys)[1..] == EmbedMembers(j, keys[1..]);
      assert EmbedMembers(j, keys)[0] == Entry(Name(key), Embed(j.members[key]));
      hide Embed, EmbedMembers, Normalize, Restrict;
    }
  }

  /** Canonicalising a canonical value again changes nothing. */
  lemma CanonicalIsStable(v: Value, nfc: string -> string)
    requires IsNormalization(nfc) && Normalize(v, nfc).Ok?
    ensures CanonicalJson(Embed(Normalize(v, nfc).value), nfc) == CanonicalJson(v, nfc)
  {
    NormalizeIsNormal(v, nfc);
    EmbeddedNormalizes(Normalize(v, nfc).value, nfc);
  }
}
