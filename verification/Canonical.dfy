/** Canonical JSON: the normal form of a value and its compact, key-sorted text.
    `nfc` stands for Unicode normalisation form C. */
module Canonical {
  import opened Wrappers
  import opened Strings

  /** A float-free JSON value; an object is a mapping, without an order of its members. */
  datatype Json =
    | Null
    | Bool(b: bool)
    | Int(n: int)
    | Str(s: string)
    | Arr(items: seq<Json>)
    | Obj(members: map<string, Json>)

  datatype Key = Name(name: string) | NotAString

  /** What a caller passes: mappings list their members in insertion order. */
  datatype Value =
    | Nothing
    | Flag(flag: bool)
    | Number(number: int)
    | Text(text: string)
    | List(values: seq<Value>)
    | Mapping(entries: seq<Entry>)
    | Unsupported

  datatype Entry = Entry(key: Key, value: Value)

  datatype Error = KeyNotAString | DuplicateKey | UnsupportedType

  function Normalize(v: Value, nfc: string -> string): Result<Json, Error> {
    match v
    case Nothing => Ok(Null)
    case Flag(flag) => Ok(Bool(flag))
    case Number(number) => Ok(Int(number))
    case Text(text) => Ok(Str(nfc(text)))
    case List(values) =>
      (match NormalizeAll(values, nfc)
       case Ok(items) => Ok(Arr(items))
       case Err(e) => Err(e))
    case Mapping(entries) =>
      (match NormalizeEntries(entries, nfc, map[])
       case Ok(members) => Ok(Obj(members))
       case Err(e) => Err(e))
    case Unsupported => Err(UnsupportedType)
  }

  function NormalizeAll(values: seq<Value>, nfc: string -> string): Result<seq<Json>, Error> {
    if values == [] then Ok([])
    else
      match Normalize(values[0], nfc)
      case Err(e) => Err(e)
      case Ok(first) =>
        match NormalizeAll(values[1..], nfc)
        case Err(e) => Err(e)
        case Ok(rest) => Ok([first] + rest)
  }

  /** The members in insertion order, each key checked against those before it. */
  function NormalizeEntries(entries: seq<Entry>, nfc: string -> string, normalized: map<string, Json>)
    : Result<map<string, Json>, Error>
  {
    if entries == [] then Ok(normalized)
    else
      var entry := entries[0];
      if entry.key == NotAString then Err(KeyNotAString)
      else
        var key := nfc(entry.key.name);
        if key in normalized then Err(DuplicateKey)
        else
          match NormalizeMember(entry, nfc)
          case Err(e) => Err(e)
          case Ok(value) => NormalizeEntries(entries[1..], nfc, normalized[key := value])
  }

  function NormalizeMember(entry: Entry, nfc: string -> string): Result<Json, Error> {
    Normalize(entry.value, nfc)
  }

  // ---- Text

  function HexDigit(d: nat): char
    requires d < 16
  {
    "0123456789abcdef"[d]
  }

  function CharText(c: char): string {
    if c == '"' then "\\\""
    else if c == '\\' then "\\\\"
    else if c == '\n' then "\\n"
    else if c == '\r' then "\\r"
    else if c == '\t' then "\\t"
    else if c == '\U{0008}' then "\\b"
    else if c == '\U{000C}' then "\\f"
    else if c < ' ' then "\\u00" + [HexDigit(c as int / 16), HexDigit(c as int % 16)]
    else [c]
  }

  function StringTail(s: string): string {
    if s == "" then "\"" else CharText(s[0]) + StringTail(s[1..])
  }

  function StringText(s: string): string {
    "\"" + StringTail(s)
  }

  function Digits(n: nat): string {
    if n < 10 then [HexDigit(n)] else Digits(n / 10) + [HexDigit(n % 10)]
  }

  function IntText(n: int): string {
    if n < 0 then "-" + Digits(-n) else Digits(n)
  }

  function Print(j: Json): string
    decreases j, 0
  {
    match j
    case Null => "null"
    case Bool(b) => if b then "true" else "false"
    case Int(n) => IntText(n)
    case Str(s) => StringText(s)
    case Arr(items) => if items == [] then "[]" else "[" + (Print(items[0]) + ItemsTail(items[1..]))
    case Obj(members) =>
      var keys := Sorted(members.Keys);
      if keys == [] then "{}" else "{" + (MemberText(j, keys[0]) + MembersTail(j, keys[1..]))
  }

  function ItemsTail(items: seq<Json>): string
    decreases items
  {
    if items == [] then "]" else "," + (Print(items[0]) + ItemsTail(items[1..]))
  }

  function MemberText(j: Json, key: string): string
    requires j.Obj? && key in j.members
    decreases j, 0, 0
  {
    StringText(key) + (":" + Print(j.members[key]))
  }

  function MembersTail(j: Json, keys: seq<string>): string
    requires j.Obj? && forall k | k in keys :: k in j.members
    decreases j, 0, |keys|
  {
    if keys == [] then "}" else "," + (MemberText(j, keys[0]) + MembersTail(j, keys[1..]))
  }

  function CanonicalJson(v: Value, nfc: string -> string): Result<string, Error> {
    match Normalize(v, nfc)
    case Err(e) => Err(e)
    case Ok(j) => Ok(Print(j))
  }
}
