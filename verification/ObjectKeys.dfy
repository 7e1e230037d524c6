/** The one object key an import session may write. */
module ObjectKeys {
  import opened Wrappers

  datatype KeyError = UnsafeKey | UnsafeSegment | OutsideScope

  /** The parts between slashes. */
  function Split(s: string): (parts: seq<string>)
    ensures parts != []
  {
    if s == "" then [""]
    else
      var rest := Split(s[1..]);
      if s[0] == '/' then [""] + rest else [[s[0]] + rest[0]] + rest[1..]
  }

  predicate IsSchemeAt(s: string, i: int) {
    0 <= i <= |s| - 3 && s[i] == ':' && s[i + 1] == '/' && s[i + 2] == '/'
  }

  predicate HasScheme(s: string) {
    exists i | 0 <= i < |s| :: IsSchemeAt(s, i)
  }

  predicate IsSafeKey(key: string) {
    && key != "" && key[0] != '/' && '\\' !in key && !HasScheme(key)
    && forall part | part in Split(key) :: part != "" && part != "." && part != ".."
  }

  predicate IsSafeSegment(s: string) {
    s != "" && s != "." && s != ".." && '/' !in s && '\\' !in s && !HasScheme(s)
  }

  function PayloadPath(workspace: string, session: string): string {
    "workspaces" + ("/" + (workspace + ("/" + ("imports" + ("/" + (session + ("/" + "payload.csv")))))))
  }

  function PayloadKey(workspace: string, session: string): Result<string, KeyError> {
    if IsSafeSegment(workspace) && IsSafeSegment(session) then Ok(PayloadPath(workspace, session))
    else Err(UnsafeSegment)
  }

  /** The exact containment demanded before any object-store operation. */
  function RequirePayloadKey(workspace: string, session: string, key: string): Result<string, KeyError> {
    if !IsSafeKey(key) || PayloadKey(workspace, session).Err? || key != PayloadKey(workspace, session).value
    then Err(OutsideScope)
    else Ok(key)
  }

  lemma {:induction false} SplitPart(part: string, rest: string)
    requires '/' !in part
    ensures Split(part + ("/" + rest)) == [part] + Split(rest)
  {
    var s := part + ("/" + rest);
    if part == "" {
      assert s == "/" + rest && s[1..] == rest;
    } else {
      assert s[0] == part[0] && s[1..] == part[1..] + ("/" + rest);
      SplitPart(part[1..], rest);
      assert [part[0]] + part[1..] == part;
    }
  }

  lemma {:induction false} SplitLast(part: string)
    requires '/' !in part
    ensures Split(part) == [part]
  {
    if part != "" {
      SplitLast(part[1..]);
      assert [part[0]] + part[1..] == part;
    }
  }

  lemma SplitPayloadPath(workspace: string, session: string)
    requires '/' !in workspace && '/' !in session
    ensures Split(PayloadPath(workspace, session)) == ["workspaces", workspace, "imports", session, "payload.csv"]
  {
    hide Split;
    var p4 := "payload.csv";
    var p3 := session + ("/" + p4);
    var p2 := "imports" + ("/" + p3);
    var p1 := workspace + ("/" + p2);
    SplitLast(p4);
    SplitPart(session, p4);
    SplitPart("imports", p3);
    SplitPart(workspace, p2);
    SplitPart("workspaces", p1);
  }

  /** Two slashes in a row leave an empty part, never the first one. */
  lemma {:induction false} LaterEmptyPart(s: string, i: nat)
    requires i + 1 < |s| && s[i] == '/' && s[i + 1] == '/'
    ensures "" in Split(s)[1..]
  {
    if i == 0 {
      assert Split(s[1..]) == [""] + Split(s[2..]);
      assert Split(s)[1..] == Split(s[1..]);
    } else {
      LaterEmptyPart(s[1..], i - 1);
      assert forall part | part in Split(s[1..])[1..] :: part in Split(s[1..]);
      assert s[0] != '/' ==> Split(s)[1..] == Split(s[1..])[1..];
      assert s[0] == '/' ==> Split(s)[1..] == Split(s[1..]);
    }
  }

  lemma PayloadPathIsSafe(workspace: string, session: string)
    requires IsSafeSegment(workspace) && IsSafeSegment(session)
    ensures IsSafeKey(PayloadPath(workspace, session))
  {
    var key := PayloadPath(workspace, session);
    SplitPayloadPath(workspace, session);
    if HasScheme(key) {
      var i :| 0 <= i < |key| && IsSchemeAt(key, i);
      LaterEmptyPart(key, i + 1);
    }
  }

  /** A key is accepted for a session exactly when it is that session's payload path. */
  lemma AcceptedKeyIsPayloadPath(workspace: string, session: string, key: string)
    ensures RequirePayloadKey(workspace, session, key).Ok?
       <==> IsSafeSegment(workspace) && IsSafeSegment(session) && key == PayloadPath(workspace, session)
  {
    if IsSafeSegment(workspace) && IsSafeSegment(session) {
      PayloadPathIsSafe(workspace, session);
    }
  }

  /** No key is accepted for two sessions or two workspaces. */
  lemma KeysAreNotShared(w: string, s: string, w': string, s': string, key: string)
    requires RequirePayloadKey(w, s, key).Ok? && RequirePayloadKey(w', s', key).Ok?
    ensures w == w' && s == s'
  {
    SplitPayloadPath(w, s);
    SplitPayloadPath(w', s');
    assert Split(key)[1] == w && Split(key)[1] == w' && Split(key)[3] == s && Split(key)[3] == s';
  }
}
