/** A reader of compact JSON by sections 2, 6 and 7 of RFC 8259, and the proof that it undoes the printer. */
module CanonicalReader {
  import opened Wrappers
  import opened Strings
  import opened Canonical

  datatype Read<T> = Failed | Done(value: T, rest: string)

  // ---- Strings

  function HexValue(c: char): Option<nat> {
    if IsDigit(c) then Some(c as int - '0' as int)
    else if 'a' <= c <= 'f' then Some(c as int - 'a' as int + 10)
    else if 'A' <= c <= 'F' then Some(c as int - 'A' as int + 10)
    else None
  }

  /** Four hexadecimal digits of a character; surrogates, which come in pairs, are not read. */
  function ReadCode(text: string): Read<char> {
    if |text| < 4 then Failed
    else
      var a, b, c, d := HexValue(text[0]), HexValue(text[1]), HexValue(text[2]), HexValue(text[3]);
      if a.None? || b.None? || c.None? || d.None? then Failed
      else
        var code := ((a.value * 16 + b.value) * 16 + c.value) * 16 + d.value;
        if 0 <= code < 0xD800 || 0xE000 <= code < 0x10000 then Done(code as char, text[4..]) else Failed
  }

  /** The character a backslash announces. */
  function ReadEscape(text: string): Read<char> {
    if text == "" then Failed
    else
      var rest := text[1..];
      match text[0]
      case '"' => Done('"', rest)
      case '\\' => Done('\\', rest)
      case '/' => Done('/', rest)
      case 'b' => Done('\U{0008}', rest)
      case 'f' => Done('\U{000C}', rest)
      case 'n' => Done('\n', rest)
      case 'r' => Done('\r', rest)
      case 't' => Done('\t', rest)
      case 'u' => ReadCode(rest)
      case _ => Failed
  }

  /** One character of a string, escaped or as it stands. */
  function ReadChar(text: string): (r: Read<char>)
    ensures r.Done? ==> |r.rest| < |text|
  {
    if text == "" || text[0] == '"' || text[0] < ' ' then Failed
    else if text[0] == '\\' then ReadEscape(text[1..])
    else Done(text[0], text[1..])
  }

  /** The characters up to the closing quote. */
  function ReadChars(text: string): (r: Read<string>)
    ensures r.Done? ==> |r.rest| < |text|
  {
    if text != "" && text[0] == '"' then Done("", text[1..])
    else
      match ReadChar(text)
      case Failed => Failed
      case Done(c, rest) =>
        match ReadChars(rest)
        case Failed => Failed
        case Done(s, end) => Done([c] + s, end)
  }

  // ---- Integers

  function DigitCount(text: string): (n: nat)
    ensures n <= |text|
  {
    if text != "" && IsDigit(text[0]) then 1 + DigitCount(text[1..]) else 0
  }

  function DecimalValue(digits: string): int {
    if digits == "" then 0
    else DecimalValue(digits[..|digits| - 1]) * 10 + (digits[|digits| - 1] as int - '0' as int)
  }

  /** Digits without a leading zero. */
  function ReadNatural(text: string): (r: Read<int>)
    ensures r.Done? ==> |r.rest| < |text|
  {
    var n := DigitCount(text);
    if n == 0 || (n > 1 && text[0] == '0') then Failed else Done(DecimalValue(text[..n]), text[n..])
  }

  function ReadInteger(text: string): (r: Read<int>)
    ensures r.Done? ==> |r.rest| < |text|
  {
    if text != "" && text[0] == '-' then
      match ReadNatural(text[1..])
      case Failed => Failed
      case Done(n, rest) => Done(-n, rest)
    else ReadNatural(text)
  }

  // ---- Values

  function ReadWord(word: string, j: Json, text: string): (r: Read<Json>)
    requires word != ""
    ensures r.Done? ==> |r.rest| < |text|
  {
    if word <= text then Done(j, text[|word|..]) else Failed
  }

  function ReadValue(text: string): (r: Read<Json>)
    ensures r.Done? ==> |r.rest| < |text|
    decreases |text|, 1
  {
    if text == "" then Failed
    else
      match text[0]
      case 'n' => ReadWord("null", Null, text)
      case 't' => ReadWord("true", Bool(true), text)
      case 'f' => ReadWord("false", Bool(false), text)
      case '"' =>
        (match ReadChars(text[1..])
         case Failed => Failed
         case Done(s, rest) => Done(Str(s), rest))
      case '[' =>
        if |text| > 1 && text[1] == ']' then Done(Arr([]), text[2..])
        else
          (match ReadItems(text[1..])
           case Failed => Failed
           case Done(items, rest) => Done(Arr(items), rest))
      case '{' =>
        if |text| > 1 && text[1] == '}' then Done(Obj(map[]), text[2..])
        else
          (match ReadMembers(text[1..])
           case Failed => Failed
           case Done(members, rest) => Done(Obj(members), rest))
      case _ =>
        match ReadInteger(text)
        case Failed => Failed
        case Done(n, rest) => Done(Int(n), rest)
  }

  /** The values up to the closing bracket. */
  function ReadItems(text: string): (r: Read<seq<Json>>)
    ensures r.Done? ==> |r.rest| < |text|
    decreases |text|, 2
  {
    match ReadValue(text)
    case Failed => Failed
    case Done(first, rest) =>
      if rest != "" && rest[0] == ']' then Done([first], rest[1..])
      else if rest != "" && rest[0] == ',' then
        match ReadItems(rest[1..])
        case Failed => Failed
        case Done(more, end) => Done([first] + more, end)
      else Failed
  }

  /** A key, a colon and a value. */
  function ReadMember(text: string): (r: Read<(string, Json)>)
    ensures r.Done? ==> |r.rest| < |text|
    decreases |text|, 2
  {
    if text == "" || text[0] != '"' then Failed
    else
      match ReadChars(text[1..])
      case Failed => Failed
      case Done(key, rest) =>
        if rest == "" || rest[0] != ':' then Failed
        else
          match ReadValue(rest[1..])
          case Failed => Failed
          case Done(value, end) => Done((key, value), end)
  }

  /** The members up to the closing brace; of members with one key the last counts. */
  function ReadMembers(text: string): (r: Read<map<string, Json>>)
    ensures r.Done? ==> |r.rest| < |text|
    decreases |text|, 3
  {
    match ReadMember(text)
    case Failed => Failed
    case Done(member, rest) =>
      if rest != "" && rest[0] == '}' then Done(map[member.0 := member.1], rest[1..])
      else if rest != "" && rest[0] == ',' then
        match ReadMembers(rest[1..])
        case Failed => Failed
        case Done(more, end) => Done(map[member.0 := member.1] + more, end)
      else Failed
  }

  // ---- Reading what was printed

  lemma HexReadsBack(d: nat)
    requires d < 16
    ensures HexValue(HexDigit(d)) == Some(d)
    ensures d < 10 ==> IsDigit(HexDigit(d)) && HexDigit(d) as int - '0' as int == d
  {
  }

  lemma CodeReadsBack(c: char, rest: string)
    requires c < ' '
    ensures ReadEscape("u00" + [HexDigit(c as int / 16), HexDigit(c as int % 16)] + rest) == Done(c, rest)
  {
    var high, low := c as int / 16, c as int % 16;
    HexReadsBack(0);
    HexReadsBack(high);
    HexReadsBack(low);
    var digits := "00" + [HexDigit(high), HexDigit(low)];
    var text := "u" + (digits + rest);
    assert "u00" + [HexDigit(high), HexDigit(low)] + rest == text && text[1..] == digits + rest;
    hide HexDigit, HexValue;
    assert (digits + rest)[4..] == rest;
  }

  lemma EscapeReadsBack(escape: string, c: char, rest: string)
    requires ReadEscape(escape + rest) == Done(c, rest)
    ensures ReadChar("\\" + escape + rest) == Done(c, rest)
  {
    hide ReadEscape;
    assert ("\\" + escape + rest)[1..] == escape + rest;
  }

  /** A short escape is a backslash and one letter. */
  lemma LetterReadsBack(c: char, rest: string)
    requires c in "\"\\\n\r\t\U{0008}\U{000C}"
    ensures |CharText(c)| == 2 && CharText(c) == "\\" + [CharText(c)[1]]
    ensures ReadEscape([CharText(c)[1]] + rest) == Done(c, rest)
  {
    assert ([CharText(c)[1]] + rest)[1..] == rest;
  }

  lemma CharReadsBack(c: char, rest: string)
    ensures ReadChar(CharText(c) + rest) == Done(c, rest)
    ensures CharText(c) + rest != "" && (CharText(c) + rest)[0] != '"'
  {
    if c in "\"\\\n\r\t\U{0008}\U{000C}" {
      LetterReadsBack(c, rest);
      hide CharText, ReadEscape;
      EscapeReadsBack([CharText(c)[1]], c, rest);
    } else if c < ' ' {
      var escape := "u00" + [HexDigit(c as int / 16), HexDigit(c as int % 16)];
      assert CharText(c) == "\\" + escape;
      hide CharText, HexDigit, ReadEscape;
      CodeReadsBack(c, rest);
      EscapeReadsBack(escape, c, rest);
    } else {
      assert CharText(c) == [c];
      hide CharText, ReadEscape;
      assert ([c] + rest)[1..] == rest;
    }
  }

  lemma {:induction false} StringReadsBack(s: string, rest: string)
    ensures ReadChars(StringTail(s) + rest) == Done(s, rest)
  {
    hide CharText, ReadChar;
    if s == "" {
      assert ("\"" + rest)[1..] == rest;
    } else {
      var tail := StringTail(s[1..]) + rest;
      assert StringTail(s) + rest == CharText(s[0]) + tail;
      CharReadsBack(s[0], tail);
      StringReadsBack(s[1..], rest);
      assert [s[0]] + s[1..] == s;
    }
  }

  ghost predicate NoDigitFirst(rest: string) {
    rest == "" || !IsDigit(rest[0])
  }

  /** Printed digits have the number's value and no leading zero. */
  lemma {:induction false} DigitsMean(n: nat)
    ensures var digits := Digits(n);
            && |digits| > 0 && DecimalValue(digits) == n
            && (forall i | 0 <= i < |digits| :: IsDigit(digits[i]))
            && (n > 0 ==> digits[0] != '0') && (n < 10 <==> |digits| == 1)
  {
    HexReadsBack(n % 10);
    if n < 10 {
      assert Digits(n)[..0] == "";
    } else {
      DigitsMean(n / 10);
      assert Digits(n)[..|Digits(n)| - 1] == Digits(n / 10);
    }
  }

  lemma {:induction false} CountsDigits(digits: string, rest: string)
    requires (forall i | 0 <= i < |digits| :: IsDigit(digits[i])) && NoDigitFirst(rest)
    ensures DigitCount(digits + rest) == |digits|
  {
    if digits == "" {
      assert digits + rest == rest;
    } else {
      assert (digits + rest)[1..] == digits[1..] + rest;
      CountsDigits(digits[1..], rest);
    }
  }

  lemma NaturalReadsBack(n: nat, rest: string)
    requires NoDigitFirst(rest)
    ensures ReadNatural(Digits(n) + rest) == Done(n as int, rest)
    ensures Digits(n) + rest != "" && IsDigit((Digits(n) + rest)[0])
  {
    DigitsMean(n);
    hide Digits, DecimalValue;
    CountsDigits(Digits(n), rest);
    assert (Digits(n) + rest)[..|Digits(n)|] == Digits(n) && (Digits(n) + rest)[|Digits(n)|..] == rest;
  }

  lemma IntegerReadsBack(n: int, rest: string)
    requires NoDigitFirst(rest)
    ensures ReadInteger(IntText(n) + rest) == Done(n, rest)
    ensures IntText(n) + rest != "" && ((IntText(n) + rest)[0] == '-' || IsDigit((IntText(n) + rest)[0]))
  {
    hide Digits, ReadNatural;
    if n < 0 {
      NaturalReadsBack(-n, rest);
      assert (IntText(n) + rest)[1..] == Digits(-n) + rest;
    } else {
      NaturalReadsBack(n, rest);
    }
  }

  /** What may follow a value. */
  ghost predicate Delimited(rest: string) {
    rest == "" || rest[0] == ',' || rest[0] == ']' || rest[0] == '}'
  }

  lemma ScalarReadsBack(j: Json, rest: string)
    requires Delimited(rest) && (j.Null? || j.Bool? || j.Int?)
    ensures ReadValue(Print(j) + rest) == Done(j, rest)
  {
    if j.Int? {
      IntegerReadsBack(j.n, rest);
      hide IntText, ReadInteger;
    } else {
      assert (Print(j) + rest)[|Print(j)|..] == rest;
      assert Print(j) <= Print(j) + rest;
    }
  }

  lemma TextReadsBack(s: string, rest: string)
    ensures ReadValue(Print(Str(s)) + rest) == Done(Str(s), rest)
  {
    hide StringTail, ReadChars;
    StringReadsBack(s, rest);
    assert (Print(Str(s)) + rest)[1..] == StringTail(s) + rest;
  }

  /** The reader undoes the printer, whatever delimiter follows. */
  lemma {:induction false} ReadsBack(j: Json, rest: string)
    requires Delimited(rest)
    ensures ReadValue(Print(j) + rest) == Done(j, rest)
    decreases j, 1
  {
    hide Print, ReadValue;
    match j
    case Str(s) => TextReadsBack(s, rest);
    case Arr(_) => ArrayReadsBack(j, rest);
    case Obj(_) => ObjectReadsBack(j, rest);
    case _ => ScalarReadsBack(j, rest);
  }

  /** A value's text starts with no closing bracket. */
  lemma ValueStart(j: Json, rest: string)
    ensures Print(j) + rest != "" && (Print(j) + rest)[0] != ']'
  {
    if j.Int? {
      IntegerReadsBack(j.n, "");
      assert IntText(j.n) + "" == IntText(j.n);
      hide IntText;
    } else {
      hide ItemsTail, MemberText, MembersTail, StringTail, IntText;
    }
  }

  lemma ItemsStart(items: seq<Json>, rest: string)
    ensures var text := ItemsTail(items) + rest;
            && Delimited(text) && text != ""
            && (items == [] ==> text[0] == ']' && text[1..] == rest)
            && (items != [] ==> text[0] == ',' && text[1..] == Print(items[0]) + (ItemsTail(items[1..]) + rest))
  {
    hide Print;
    if items != [] {
      assert ItemsTail(items) + rest == "," + (Print(items[0]) + (ItemsTail(items[1..]) + rest));
    }
  }

  lemma {:induction false} ItemsReadBack(items: seq<Json>, rest: string)
    requires items != []
    ensures ReadItems(Print(items[0]) + (ItemsTail(items[1..]) + rest)) == Done(items, rest)
    decreases items, 0
  {
    hide Print, ReadValue, ItemsTail;
    var tail := ItemsTail(items[1..]) + rest;
    ItemsStart(items[1..], rest);
    ReadsBack(items[0], tail);
    if |items| == 1 {
      assert items == [items[0]];
    } else {
      ItemsReadBack(items[1..], rest);
      assert items[1..][1..] == items[2..] && items == [items[0]] + items[1..];
    }
  }

  /** The members under these keys. */
  function Restrict(members: map<string, Json>, keys: seq<string>): map<string, Json>
    requires forall k | k in keys :: k in members
  {
    map k | k in keys :: members[k]
  }

  lemma MemberStep(text: string, key: string, after: string, value: Json, rest: string)
    requires text != "" && text[0] == '"'
    requires ReadChars(text[1..]) == Done(key, ":" + after) && ReadValue(after) == Done(value, rest)
    ensures ReadMember(text) == Done((key, value), rest)
  {
    hide ReadChars, ReadValue;
    assert (":" + after)[1..] == after;
  }

  lemma MemberStart(j: Json, key: string, rest: string)
    requires j.Obj? && key in j.members
    ensures var text := MemberText(j, key) + rest;
            && text != "" && text[0] == '"'
            && text[1..] == StringTail(key) + (":" + (Print(j.members[key]) + rest))
  {
    hide Print, StringTail;
    assert MemberText(j, key) + rest == "\"" + (StringTail(key) + (":" + (Print(j.members[key]) + rest)));
  }

  lemma MemberReadsBack(j: Json, key: string, rest: string)
    requires j.Obj? && key in j.members && Delimited(rest)
    ensures MemberText(j, key) + rest != "" && (MemberText(j, key) + rest)[0] == '"'
    ensures ReadMember(MemberText(j, key) + rest) == Done((key, j.members[key]), rest)
    decreases j, 0, 0
  {
    hide *;
    var value := Print(j.members[key]) + rest;
    MemberStart(j, key, rest);
    StringReadsBack(key, ":" + value);
    ReadsBack(j.members[key], rest);
    MemberStep(MemberText(j, key) + rest, key, value, j.members[key], rest);
  }

  lemma MembersStart(j: Json, keys: seq<string>, rest: string)
    requires j.Obj? && forall k | k in keys :: k in j.members
    ensures var text := MembersTail(j, keys) + rest;
            && Delimited(text) && text != ""
            && (keys == [] ==> text[0] == '}' && text[1..] == rest)
            && (keys != [] ==>
                  text[0] == ',' && text[1..] == MemberText(j, keys[0]) + (MembersTail(j, keys[1..]) + rest))
  {
    hide MemberText;
    if keys != [] {
      assert MembersTail(j, keys) + rest == "," + (MemberText(j, keys[0]) + (MembersTail(j, keys[1..]) + rest));
    }
  }

  lemma FirstIsNotInRest(keys: seq<string>)
    requires keys != [] && IsSorted(keys)
    ensures keys[0] !in keys[1..] && IsSorted(keys[1..])
  {
    BeforeIsIrreflexive(keys[0]);
  }

  lemma RestrictStep(members: map<string, Json>, keys: seq<string>)
    requires keys != [] && (forall k | k in keys :: k in members) && keys[0] !in keys[1..]
    ensures forall k | k in keys[1..] :: k in members
    ensures map[keys[0] := members[keys[0]]] + Restrict(members, keys[1..]) == Restrict(members, keys)
  {
    assert keys == [keys[0]] + keys[1..];
  }

  lemma {:induction false} MembersReadBack(j: Json, keys: seq<string>, rest: string)
    requires j.Obj? && keys != [] && IsSorted(keys) && forall k | k in keys :: k in j.members
    ensures ReadMembers(MemberText(j, keys[0]) + (MembersTail(j, keys[1..]) + rest))
         == Done(Restrict(j.members, keys), rest)
    decreases j, 0, |keys|
  {
    hide MemberText, MembersTail, ReadMember, Restrict;
    var tail := MembersTail(j, keys[1..]) + rest;
    MembersStart(j, keys[1..], rest);
    MemberReadsBack(j, keys[0], tail);
    FirstIsNotInRest(keys);
    RestrictStep(j.members, keys);
    if |keys| == 1 {
      OneMember(j.members, keys);
    } else {
      MembersReadBack(j, keys[1..], rest);
    }
  }

  lemma OneMember(members: map<string, Json>, keys: seq<string>)
    requires |keys| == 1 && keys[0] in members
    ensures Restrict(members, keys) == map[keys[0] := members[keys[0]]]
  {
    assert keys == [keys[0]];
  }

  lemma AllMembers(members: map<string, Json>)
    ensures Restrict(members, Sorted(members.Keys)) == members
    ensures map[] + Restrict(members, Sorted(members.Keys)) == members
    ensures Sorted(members.Keys) == [] <==> members == map[]
  {
  }

  lemma ObjectStep(inner: string, members: map<string, Json>, rest: string)
    requires inner != "" && inner[0] != '}' && ReadMembers(inner) == Done(members, rest)
    ensures ReadValue("{" + inner) == Done(Obj(members), rest)
  {
    hide ReadMembers;
    assert ("{" + inner)[1..] == inner && ("{" + inner)[1] == inner[0];
  }

  lemma ArrayStep(inner: string, items: seq<Json>, rest: string)
    requires inner != "" && inner[0] != ']' && ReadItems(inner) == Done(items, rest)
    ensures ReadValue("[" + inner) == Done(Arr(items), rest)
  {
    hide ReadItems;
    assert ("[" + inner)[1..] == inner && ("[" + inner)[1] == inner[0];
  }

  lemma EmptyReadsBack(j: Json, rest: string)
    requires j == Arr([]) || j == Obj(map[])
    ensures ReadValue(Print(j) + rest) == Done(j, rest)
  {
    AllMembers(map[]);
    assert |Print(j)| == 2 && (Print(j) + rest)[2..] == rest;
  }

  lemma ArrayText(j: Json, rest: string)
    requires j.Arr? && j.items != []
    ensures Print(j) + rest == "[" + (Print(j.items[0]) + (ItemsTail(j.items[1..]) + rest))
  {
    hide ItemsTail;
    assert Print(j) == "[" + (Print(j.items[0]) + ItemsTail(j.items[1..]));
    hide Print;
  }

  lemma ObjectText(j: Json, keys: seq<string>, rest: string)
    requires j.Obj? && keys == Sorted(j.members.Keys) && keys != []
    ensures Print(j) + rest == "{" + (MemberText(j, keys[0]) + (MembersTail(j, keys[1..]) + rest))
  {
    hide MemberText, MembersTail;
    assert Print(j) == "{" + (MemberText(j, keys[0]) + MembersTail(j, keys[1..]));
    hide Print;
  }

  lemma ArrayReadsBack(j: Json, rest: string)
    requires j.Arr?
    ensures ReadValue(Print(j) + rest) == Done(j, rest)
    decreases j, 0
  {
    hide *;
    if j.items == [] {
      EmptyReadsBack(j, rest);
    } else {
      var tail := ItemsTail(j.items[1..]) + rest;
      ArrayText(j, rest);
      ItemsReadBack(j.items, rest);
      ValueStart(j.items[0], tail);
      ArrayStep(Print(j.items[0]) + tail, j.items, rest);
    }
  }

  lemma ObjectReadsBack(j: Json, rest: string)
    requires j.Obj?
    ensures ReadValue(Print(j) + rest) == Done(j, rest)
    decreases j, 0, |j.members| + 1
  {
    hide *;
    var keys := Sorted(j.members.Keys);
    AllMembers(j.members);
    if keys == [] {
      EmptyReadsBack(j, rest);
    } else {
      var tail := MembersTail(j, keys[1..]) + rest;
      ObjectText(j, keys, rest);
      MembersReadBack(j, keys, rest);
      MembersStart(j, keys[1..], rest);
      MemberReadsBack(j, keys[0], tail);
      ObjectStep(MemberText(j, keys[0]) + tail, j.members, rest);
    }
  }

  /** The reader is a left inverse of the printer, so two normal forms print alike only if they are equal. */
  lemma PrinterIsInjective(a: Json, b: Json)
    ensures ReadValue(Print(a)) == Done(a, "")
    ensures Print(a) == Print(b) <==> a == b
  {
    ReadsBack(a, "");
    ReadsBack(b, "");
    assert Print(a) + "" == Print(a) && Print(b) + "" == Print(b);
    hide Print, ReadValue;
  }
}
