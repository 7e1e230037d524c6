/** Reading registry package keys: an optional slash, a name, `@`, a version, optional peer contexts. */
module LockKeys {
  import opened Wrappers
  import opened Strings

  datatype AuditError = AuditError

  datatype Package = Package(name: string, version: string)

  predicate IsSpace(c: char) {
    c == ' ' || '\t' <= c <= '\r' || '\U{001C}' <= c <= '\U{001F}'
  }

  function WithoutPrefixSlash(raw: string): string {
    if raw != "" && raw[0] == '/' then raw[1..] else raw
  }

  /** The text before the first opening parenthesis. */
  function BeforePeers(key: string): string {
    if key == "" || key[0] == '(' then "" else [key[0]] + BeforePeers(key[1..])
  }

  /** The position of the last `@`, or -1. */
  function LastAt(base: string): (at: int)
    ensures -1 <= at < |base|
    ensures at >= 0 ==> base[at] == '@'
    ensures forall i | at < i < |base| :: base[i] != '@'
  {
    if base == "" then -1
    else if base[|base| - 1] == '@' then |base| - 1
    else LastAt(base[..|base| - 1])
  }

  predicate IsPackage(p: Package) {
    && p.name != "" && !(p.name[0] == '@' && '/' !in p.name)
    && p.version != "" && IsDigit(p.version[0]) && forall c | c in p.version :: !IsSpace(c)
  }

  function RegistryPackageKey(raw: string): Result<Package, AuditError> {
    var base := BeforePeers(WithoutPrefixSlash(raw));
    var separator := LastAt(base);
    if separator <= 0 then Err(AuditError)
    else
      var package := Package(base[..separator], base[separator + 1..]);
      if IsPackage(package) then Ok(package) else Err(AuditError)
  }

  /** A peer context, if any, starts at a parenthesis. */
  predicate IsPeerSuffix(suffix: string) {
    suffix == "" || suffix[0] == '('
  }

  lemma {:induction false} BeforePeersIsPrefix(key: string)
    ensures |BeforePeers(key)| <= |key| && BeforePeers(key) == key[..|BeforePeers(key)|]
    ensures '(' !in BeforePeers(key) && IsPeerSuffix(key[|BeforePeers(key)|..])
  {
    if key != "" && key[0] != '(' {
      BeforePeersIsPrefix(key[1..]);
    }
  }

  lemma {:induction false} BeforePeersCuts(base: string, suffix: string)
    requires '(' !in base && IsPeerSuffix(suffix)
    ensures BeforePeers(base + suffix) == base
  {
    if base == "" {
      assert base + suffix == suffix;
    } else {
      assert (base + suffix)[0] == base[0] && (base + suffix)[1..] == base[1..] + suffix;
      BeforePeersCuts(base[1..], suffix);
    }
  }

  /** A name that is not a bare scope, and a version that starts with a digit and has no white space. */
  lemma PackageIff(p: Package)
    ensures IsPackage(p) <==>
            && |p.name| > 0 && (p.name[0] == '@' ==> exists i | 0 <= i < |p.name| :: p.name[i] == '/')
            && |p.version| > 0 && '0' <= p.version[0] <= '9'
            && forall i | 0 <= i < |p.version| ::
                 p.version[i] !in " \t\n\U{000B}\U{000C}\r\U{001C}\U{001D}\U{001E}\U{001F}"
  {
    var spaces := " \t\n\U{000B}\U{000C}\r\U{001C}\U{001D}\U{001E}\U{001F}";
    forall c: char
      ensures IsSpace(c) <==> c in spaces
    {
      SpaceIff(c);
    }
    hide IsSpace;
    assert forall i | 0 <= i < |p.version| :: p.version[i] in p.version;
  }

  lemma SpaceIff(c: char)
    ensures IsSpace(c) <==> c in " \t\n\U{000B}\U{000C}\r\U{001C}\U{001D}\U{001E}\U{001F}"
  {
    var spaces := " \t\n\U{000B}\U{000C}\r\U{001C}\U{001D}\U{001E}\U{001F}";
    assert spaces[0] == ' ' && spaces[1] == '\t' && spaces[2] == '\n';
    assert spaces[3] == '\U{000B}' && spaces[4] == '\U{000C}' && spaces[5] == '\r';
    assert spaces[6] == '\U{001C}' && spaces[7] == '\U{001D}' && spaces[8] == '\U{001E}' && spaces[9] == '\U{001F}';
    if IsSpace(c) {
      CharBetween(c);
    }
  }

  lemma CharBetween(c: char)
    requires IsSpace(c)
    ensures c == ' ' || c == '\t' || c == '\n' || c == '\U{000B}' || c == '\U{000C}' || c == '\r'
         || c == '\U{001C}' || c == '\U{001D}' || c == '\U{001E}' || c == '\U{001F}'
  {
    assert c as int == 32 || 9 <= c as int <= 13 || 28 <= c as int <= 31;
  }

  /** A key is read as a package exactly when it spells that package, whatever its peer context. */
  lemma KeySpellsPackage(raw: string, p: Package)
    ensures RegistryPackageKey(raw) == Ok(p)
       <==> (IsPackage(p) && '(' !in p.name && '(' !in p.version && '@' !in p.version
             && exists suffix :: (suffix == "" || suffix[0] == '(') &&
                  (if "/" <= raw then raw[1..] else raw) == p.name + "@" + p.version + suffix)
  {
    var key := WithoutPrefixSlash(raw);
    if RegistryPackageKey(raw) == Ok(p) {
      BeforePeersIsPrefix(key);
      var base := BeforePeers(key);
      assert base == p.name + "@" + p.version;
      assert key == base + key[|base|..];
    }
    if IsPackage(p) && '(' !in p.name && '(' !in p.version && '@' !in p.version {
      forall suffix | IsPeerSuffix(suffix) && key == p.name + "@" + p.version + suffix
        ensures RegistryPackageKey(raw) == Ok(p)
      {
        SpelledKey(raw, p, suffix);
      }
    }
  }

  lemma SpelledKey(raw: string, p: Package, suffix: string)
    requires IsPackage(p) && '(' !in p.name && '(' !in p.version && '@' !in p.version
    requires IsPeerSuffix(suffix) && WithoutPrefixSlash(raw) == p.name + "@" + p.version + suffix
    ensures RegistryPackageKey(raw) == Ok(p)
  {
    var base := p.name + "@" + p.version;
    BeforePeersCuts(base, suffix);
    var at := LastAt(base);
    assert base[|p.name|] == '@' && base[|p.name| + 1..] == p.version;
    assert forall i | |p.name| < i < |base| :: base[i] == base[|p.name| + 1..][i - |p.name| - 1];
    assert base[..at] == p.name && base[at + 1..] == p.version;
  }
}
