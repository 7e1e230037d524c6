/** What the canonical text looks like: members in code point order, and every character as short as
    RFC 8259 allows. */
module CanonicalForm {
  import opened Wrappers
  import opened Strings
  import opened Canonical
  import opened CanonicalReader

  /** Texts with commas between them. */
  function Joined(texts: seq<string>): string {
    if texts == [] then ""
    else if |texts| == 1 then texts[0]
    else texts[0] + "," + Joined(texts[1..])
  }

  /** Each key ahead of all later ones: the first differing character decides, and a prefix comes first. */
  ghost predicate Ascending(keys: seq<string>) {
    forall i, j | 0 <= i < j < |keys| :: ComesFirst(keys[i], keys[j])
  }

  function MemberTexts(j: Json, keys: seq<string>): (texts: seq<string>)
    requires j.Obj? && forall k | k in keys :: k in j.members
    ensures |texts| == |keys|
  {
    seq(|keys|, i requires 0 <= i < |keys| => StringText(keys[i]) + ":" + Print(j.members[keys[i]]))
  }

  lemma {:induction false} SortedIsAscending(keys: seq<string>)
    requires IsSorted(keys)
    ensures Ascending(keys)
  {
    forall i, j | 0 <= i < j < |keys|
      ensures ComesFirst(keys[i], keys[j])
    {
      BeforeIff(keys[i], keys[j]);
    }
  }

  lemma {:induction false} TailIsJoined(j: Json, keys: seq<string>)
    requires j.Obj? && keys != [] && forall k | k in keys :: k in j.members
    ensures MemberText(j, keys[0]) + MembersTail(j, keys[1..]) == Joined(MemberTexts(j, keys)) + "}"
    decreases |keys|
  {
    hide Print, StringText;
    var texts := MemberTexts(j, keys);
    assert texts[0] == MemberText(j, keys[0]);
    if |keys| == 1 {
      assert keys[1..] == [];
    } else {
      assert texts[1..] == MemberTexts(j, keys[1..]);
      TailIsJoined(j, keys[1..]);
      hide MemberText, MemberTexts;
      JoinedStep(texts[0], Joined(texts[1..]), MembersTail(j, keys[1..]));
    }
  }

  lemma JoinedStep(first: string, more: string, tail: string)
    requires tail == "," + (more + "}")
    ensures first + tail == first + "," + more + "}"
  {
  }

  /** The text of an object: its members between braces, commas between them, their keys in strictly
      ascending order of code points. */
  lemma ObjectIsAscending(j: Json) returns (keys: seq<string>)
    requires j.Obj?
    ensures Ascending(keys) && |keys| == |j.members| && forall k :: k in keys <==> k in j.members
    ensures Print(j) == "{" + Joined(MemberTexts(j, keys)) + "}"
  {
    keys := Sorted(j.members.Keys);
    SortedIsAscending(keys);
    if keys != [] {
      TailIsJoined(j, keys);
    } else {
      assert MemberTexts(j, keys) == [];
    }
    assert |j.members.Keys| == |j.members|;
    hide MemberText, MembersTail, MemberTexts, Joined, Ascending;
  }

  // ---- Characters

  lemma EscapeLength(text: string, c: char)
    requires ReadEscape(text) == Done(c, "")
    ensures |text| == 1 || (|text| == 5 && text[0] == 'u')
    ensures |text| == 1 ==> c in "\"\\/\n\r\t\U{0008}\U{000C}"
  {
  }

  lemma TextLength(text: string, c: char)
    requires ReadChar(text) == Done(c, "")
    ensures text == [c] || |text| == 2 || |text| == 6
    ensures text == [c] ==> c != '"' && c != '\\' && c >= ' '
    ensures |text| == 2 ==> c in "\"\\/\n\r\t\U{0008}\U{000C}"
  {
    hide ReadEscape;
    if text[0] == '\\' {
      EscapeLength(text[1..], c);
    } else {
      assert text == [text[0]] + text[1..];
    }
  }

  lemma PrintedLength(c: char)
    ensures c != '"' && c != '\\' && c >= ' ' ==> CharText(c) == [c]
    ensures |CharText(c)| == 1 || |CharText(c)| == 2 || |CharText(c)| == 6
    ensures c in "\"\\\n\r\t\U{0008}\U{000C}" ==> |CharText(c)| == 2
  {
  }

  lemma DigitsAreSmall(c: char)
    ensures forall x | x in CharText(c) && |CharText(c)| == 6 :: !('A' <= x <= 'F')
  {
  }

  /** No text that reads as a character is shorter than the printed one, and printed hexadecimal digits are
      small letters: nothing is escaped that need not be, and nothing longer than it must. */
  lemma CharTextIsShortest(c: char, text: string)
    requires ReadChar(text) == Done(c, "")
    ensures |CharText(c)| <= |text|
    ensures forall x | x in CharText(c) && |CharText(c)| == 6 :: !('A' <= x <= 'F')
  {
    TextLength(text, c);
    PrintedLength(c);
    DigitsAreSmall(c);
    hide CharText, ReadChar;
  }
}
