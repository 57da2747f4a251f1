/** The Redis keys of backend/app/core/query_cache.py: three families of colon-joined
    strings over one identity. */
module QueryKeys {
  import opened ColonKeys
  import Decimal
  import opened Options

  datatype Identity = Identity(
    connectionId: string,
    question: string,
    role: Option<string>,
    resourceId: Option<int>,
    employeeId: Option<string>)

  const SQL_PREFIX := "qw:sql_cache"
  const COALESCE_PREFIX := "qw:coalesce"
  const RESULT_PREFIX := "qw:coalesce_result"

  /** `value or "none"` */
  function OrNone(value: Option<string>): string {
    if value.None? || value.value == "" then "none" else value.value
  }

  function ResourceText(value: Option<int>): string {
    if value.Some? then Decimal.PrintInt(value.value) else "none"
  }

  function Tail(hash: string -> string, id: Identity): string {
    id.connectionId + ":" + (hash(id.question) + ":" + (OrNone(id.role) + ":" +
      (ResourceText(id.resourceId) + ":" + OrNone(id.employeeId))))
  }

  function SqlKey(hash: string -> string, id: Identity): string {
    SQL_PREFIX + ":" + Tail(hash, id)
  }

  function LockKey(hash: string -> string, id: Identity): string {
    COALESCE_PREFIX + ":" + Tail(hash, id)
  }

  function ResultKey(hash: string -> string, id: Identity): string {
    RESULT_PREFIX + ":" + LockKey(hash, id)
  }

  /** Connection ids are UUID strings and hashes hexadecimal, so neither holds a colon;
      roles are free text in the users table. */
  predicate Joinable(hash: string -> string, id: Identity) {
    ':' !in id.connectionId && ':' !in hash(id.question) && ':' !in OrNone(id.role)
  }

  lemma ResourceTextInjective(m: Option<int>, n: Option<int>)
    ensures ':' !in ResourceText(m)
    ensures ResourceText(m) == ResourceText(n) <==> m == n
  {
    if m.Some? {
      Decimal.PrintIntChars(m.value);
    }
    if n.Some? {
      Decimal.PrintIntChars(n.value);
    }
    if m.Some? && n.Some? {
      Decimal.PrintIntInjective(m.value, n.value);
    }
  }

  /** The parts of an identity a key can tell apart. */
  ghost predicate SameAudience(hash: string -> string, a: Identity, b: Identity) {
    a.connectionId == b.connectionId && hash(a.question) == hash(b.question) &&
    OrNone(a.role) == OrNone(b.role) && a.resourceId == b.resourceId &&
    OrNone(a.employeeId) == OrNone(b.employeeId)
  }

  lemma TailInjective(hash: string -> string, a: Identity, b: Identity)
    requires Joinable(hash, a) && Joinable(hash, b)
    ensures Tail(hash, a) == Tail(hash, b) <==> SameAudience(hash, a, b)
  {
    var a3 := ResourceText(a.resourceId) + ":" + OrNone(a.employeeId);
    var b3 := ResourceText(b.resourceId) + ":" + OrNone(b.employeeId);
    var a2, b2 := OrNone(a.role) + ":" + a3, OrNone(b.role) + ":" + b3;
    var a1, b1 := hash(a.question) + ":" + a2, hash(b.question) + ":" + b2;
    ResourceTextInjective(a.resourceId, b.resourceId);
    ResourceTextInjective(b.resourceId, a.resourceId);
    SplitAtColon(ResourceText(a.resourceId), OrNone(a.employeeId), ResourceText(b.resourceId), OrNone(b.employeeId));
    SplitAtColon(OrNone(a.role), a3, OrNone(b.role), b3);
    SplitAtColon(hash(a.question), a2, hash(b.question), b2);
    SplitAtColon(a.connectionId, a1, b.connectionId, b1);
  }

  /** Two requests meet on a key of any family exactly when they ask the same (hashed) question
      of the same connection for the same audience. */
  lemma KeysInjective(hash: string -> string, a: Identity, b: Identity)
    requires Joinable(hash, a) && Joinable(hash, b)
    ensures LockKey(hash, a) == LockKey(hash, b) <==> SameAudience(hash, a, b)
    ensures SqlKey(hash, a) == SqlKey(hash, b) <==> SameAudience(hash, a, b)
    ensures ResultKey(hash, a) == ResultKey(hash, b) <==> SameAudience(hash, a, b)
  {
    TailInjective(hash, a, b);
    var n, m, k := |COALESCE_PREFIX| + 1, |SQL_PREFIX| + 1, |RESULT_PREFIX| + 1;
    assert LockKey(hash, a)[n..] == Tail(hash, a) && LockKey(hash, b)[n..] == Tail(hash, b);
    assert SqlKey(hash, a)[m..] == Tail(hash, a) && SqlKey(hash, b)[m..] == Tail(hash, b);
    assert ResultKey(hash, a)[k..] == LockKey(hash, a) && ResultKey(hash, b)[k..] == LockKey(hash, b);
  }

  /** What `or "none"` cannot tell apart: no value, the empty string and the text "none". */
  lemma OrNoneMerges(x: Option<string>, y: Option<string>)
    ensures OrNone(x) == OrNone(y) <==>
      x == y || (x in {None, Some(""), Some("none")} && y in {None, Some(""), Some("none")})
  {
  }

  /** Hence the whole identity is recovered exactly when the texts avoid those values. */
  lemma AudienceIsIdentity(hash: string -> string, a: Identity, b: Identity)
    requires a.role !in {Some(""), Some("none")} && b.role !in {Some(""), Some("none")}
    requires a.employeeId !in {Some(""), Some("none")} && b.employeeId !in {Some(""), Some("none")}
    ensures SameAudience(hash, a, b) <==>
      a.connectionId == b.connectionId && hash(a.question) == hash(b.question) &&
      a.role == b.role && a.resourceId == b.resourceId && a.employeeId == b.employeeId
  {
    OrNoneMerges(a.role, b.role);
    OrNoneMerges(a.employeeId, b.employeeId);
  }

  // ----- what a colon in a role does --------------------------------------------------------

  /** The two requests meet on the lock, the result and the SQL key alike. */
  ghost predicate KeysMeet(hash: string -> string, a: Identity, b: Identity) {
    LockKey(hash, a) == LockKey(hash, b) && ResultKey(hash, a) == ResultKey(hash, b) && SqlKey(hash, a) == SqlKey(hash, b)
  }

  /** The families stand or fall together. */
  lemma KeysMeetTogether(hash: string -> string, a: Identity, b: Identity)
    ensures KeysMeet(hash, a, b) <==> Tail(hash, a) == Tail(hash, b)
    ensures LockKey(hash, a) == LockKey(hash, b) ==> KeysMeet(hash, a, b)
    ensures ResultKey(hash, a) == ResultKey(hash, b) ==> KeysMeet(hash, a, b)
    ensures SqlKey(hash, a) == SqlKey(hash, b) ==> KeysMeet(hash, a, b)
  {
    var n, m, k := |COALESCE_PREFIX| + 1, |SQL_PREFIX| + 1, |RESULT_PREFIX| + 1;
    assert LockKey(hash, a)[n..] == Tail(hash, a) && LockKey(hash, b)[n..] == Tail(hash, b);
    assert SqlKey(hash, a)[m..] == Tail(hash, a) && SqlKey(hash, b)[m..] == Tail(hash, b);
    assert ResultKey(hash, a)[k..] == LockKey(hash, a) && ResultKey(hash, b)[k..] == LockKey(hash, b);
  }

  /** The part of a key behind the role. */
  function Rest(id: Identity): string {
    ResourceText(id.resourceId) + ":" + OrNone(id.employeeId)
  }

  function RoleTail(id: Identity): string {
    OrNone(id.role) + ":" + Rest(id)
  }

  /** Connection and hash without a colon: the keys meet exactly when those agree and the texts
      behind them do, whatever the roles. */
  lemma KeysMeetOnTails(hash: string -> string, a: Identity, b: Identity)
    requires ':' !in a.connectionId && ':' !in hash(a.question) && ':' !in b.connectionId && ':' !in hash(b.question)
    ensures KeysMeet(hash, a, b) <==>
      a.connectionId == b.connectionId && hash(a.question) == hash(b.question) && RoleTail(a) == RoleTail(b)
  {
    hide LockKey, ResultKey, SqlKey;
    KeysMeetTogether(hash, a, b);
    SplitAtColon(hash(a.question), RoleTail(a), hash(b.question), RoleTail(b));
    SplitAtColon(a.connectionId, hash(a.question) + ":" + RoleTail(a), b.connectionId, hash(b.question) + ":" + RoleTail(b));
    TailText(hash, a);
    TailText(hash, b);
  }

  lemma TailText(hash: string -> string, id: Identity)
    ensures Tail(hash, id) == id.connectionId + ":" + (hash(id.question) + ":" + RoleTail(id))
  {
  }

  /** Between requests of one role the keys tell every audience apart, colon or not. */
  lemma EqualRolesTellApart(hash: string -> string, a: Identity, b: Identity)
    requires ':' !in a.connectionId && ':' !in hash(a.question) && ':' !in b.connectionId && ':' !in hash(b.question)
    requires OrNone(a.role) == OrNone(b.role)
    ensures KeysMeet(hash, a, b) <==> SameAudience(hash, a, b)
  {
    hide KeysMeet, ResourceText, OrNone;
    KeysMeetOnTails(hash, a, b);
    SamePrefix(OrNone(a.role) + ":", Rest(a), Rest(b));
    ResourceTextInjective(a.resourceId, b.resourceId);
    ResourceTextInjective(b.resourceId, a.resourceId);
    SplitAtColon(ResourceText(a.resourceId), OrNone(a.employeeId), ResourceText(b.resourceId), OrNone(b.employeeId));
  }

  lemma SamePrefix(p: string, x: string, y: string)
    ensures p + x == p + y <==> x == y
  {
    if p + x == p + y {
      assert (p + x)[|p|..] == x && (p + y)[|p|..] == y;
    }
  }

  /** q is p, a colon, the text of some resource id, and then nothing or a colon and anything. */
  ghost predicate RunsOn(p: string, q: string) {
    exists resource, more :: OnceOn(p, q, resource, more)
  }

  ghost predicate OnceOn(p: string, q: string, resource: Option<int>, more: string) {
    q == p + ":" + ResourceText(resource) || q == p + ":" + ResourceText(resource) + ":" + more
  }

  /** Some requests of these two roles, for some resources and employees, share their keys. */
  ghost predicate RolesCollide(hash: string -> string, connectionId: string, question: string, p: Option<string>,
      q: Option<string>) {
    exists m, e, n, f :: KeysMeet(hash, Identity(connectionId, question, p, m, e), Identity(connectionId, question, q, n, f))
  }

  lemma RolesCollideSymmetric(hash: string -> string, connectionId: string, question: string, p: Option<string>,
      q: Option<string>)
    requires RolesCollide(hash, connectionId, question, p, q)
    ensures RolesCollide(hash, connectionId, question, q, p)
  {
    var m, e, n, f :| KeysMeet(hash, Identity(connectionId, question, p, m, e), Identity(connectionId, question, q, n, f));
    assert KeysMeet(hash, Identity(connectionId, question, q, n, f), Identity(connectionId, question, p, m, e));
  }

  /** The role that runs on gives its surplus to the other request's employee. */
  lemma RunningOnCollides(hash: string -> string, connectionId: string, question: string, p: Option<string>,
      q: Option<string>)
    requires ':' !in connectionId && ':' !in hash(question) && RunsOn(OrNone(p), OrNone(q))
    ensures RolesCollide(hash, connectionId, question, p, q)
  {
    var resource, more :| OnceOn(OrNone(p), OrNone(q), resource, more);
    var b := Identity(connectionId, question, q, None, Some("x"));
    var surplus := if OrNone(q) == OrNone(p) + ":" + ResourceText(resource) then Rest(b) else more + ":" + Rest(b);
    var a := Identity(connectionId, question, p, resource, Some(surplus));
    assert surplus != "" by {
      assert |Rest(b)| > 0;
    }
    SurplusText(OrNone(p), ResourceText(resource), more, Rest(b));
    hide KeysMeet;
    KeysMeetOnTails(hash, a, b);
  }

  lemma SurplusText(p: string, r: string, more: string, rest: string)
    ensures p + ":" + (r + ":" + rest) == (p + ":" + r) + ":" + rest
    ensures p + ":" + (r + ":" + (more + ":" + rest)) == (p + ":" + r + ":" + more) + ":" + rest
  {
  }

  /** Cutting a text at its first colon, if it has one. */
  lemma {:induction false} FirstColon(s: string) returns (head: string, tail: string)
    requires ':' in s
    ensures ':' !in head && s == head + ":" + tail
  {
    if s[0] == ':' {
      head, tail := "", s[1..];
    } else {
      head, tail := FirstColon(s[1..]);
      head := [s[0]] + head;
    }
  }

  /** Equal role tails, the first role the shorter: the second role runs on. */
  lemma LongerRoleRunsOn(p: string, q: string, resource: Option<int>, employee: string, rest: string)
    requires |p| < |q| && p + ":" + (ResourceText(resource) + ":" + employee) == q + ":" + rest
    ensures RunsOn(p, q)
  {
    hide ResourceText;
    var r := ResourceText(resource);
    ResourceTextInjective(resource, resource);
    var s := q + ":" + rest;
    assert s[..|p|] == p && s[|p|] == ':';
    var over := q[|p| + 1..];
    assert q == p + ":" + over by {
      assert s[..|q|] == q;
    }
    OverText(p, over, rest);
    SamePrefix(p + ":", r + ":" + employee, over + ":" + rest);
    if ':' in over {
      var head, tail := FirstColon(over);
      SurplusText(head, tail, "", rest);
      SplitAtColon(r, employee, head, tail + ":" + rest);
      assert OnceOn(p, q, resource, tail);
    } else {
      SplitAtColon(r, employee, over, rest);
      assert OnceOn(p, q, resource, "");
    }
  }

  lemma OverText(p: string, over: string, rest: string)
    ensures (p + ":" + over) + ":" + rest == (p + ":") + (over + ":" + rest)
  {
  }

  /** Two different roles can share keys exactly when one runs on from the other. */
  lemma RolesCollideExactly(hash: string -> string, connectionId: string, question: string, p: Option<string>,
      q: Option<string>)
    requires ':' !in connectionId && ':' !in hash(question) && OrNone(p) != OrNone(q)
    ensures RolesCollide(hash, connectionId, question, p, q) <==>
      RunsOn(OrNone(p), OrNone(q)) || RunsOn(OrNone(q), OrNone(p))
  {
    hide KeysMeet, RunsOn;
    if RunsOn(OrNone(p), OrNone(q)) {
      RunningOnCollides(hash, connectionId, question, p, q);
    }
    if RunsOn(OrNone(q), OrNone(p)) {
      RunningOnCollides(hash, connectionId, question, q, p);
      RolesCollideSymmetric(hash, connectionId, question, q, p);
    }
    if RolesCollide(hash, connectionId, question, p, q) {
      var m, e, n, f :| KeysMeet(hash, Identity(connectionId, question, p, m, e), Identity(connectionId, question, q, n, f));
      MeetingRolesRunOn(hash, Identity(connectionId, question, p, m, e), Identity(connectionId, question, q, n, f));
    }
  }

  lemma MeetingRolesRunOn(hash: string -> string, a: Identity, b: Identity)
    requires ':' !in a.connectionId && ':' !in hash(a.question) && ':' !in b.connectionId && ':' !in hash(b.question)
    requires KeysMeet(hash, a, b) && OrNone(a.role) != OrNone(b.role)
    ensures RunsOn(OrNone(a.role), OrNone(b.role)) || RunsOn(OrNone(b.role), OrNone(a.role))
  {
    hide KeysMeet, RunsOn, ResourceText, OrNone;
    KeysMeetOnTails(hash, a, b);
    var p, q := OrNone(a.role), OrNone(b.role);
    if |p| < |q| {
      LongerRoleRunsOn(p, q, a.resourceId, OrNone(a.employeeId), Rest(b));
    } else if |q| < |p| {
      LongerRoleRunsOn(q, p, b.resourceId, OrNone(b.employeeId), Rest(a));
    } else {
      SameLength(p, Rest(a), q, Rest(b));
    }
  }

  lemma SameLength(p: string, x: string, q: string, y: string)
    requires p + ":" + x == q + ":" + y && |p| == |q|
    ensures p == q
  {
    assert (p + ":" + x)[..|p|] == p && (q + ":" + y)[..|q|] == q;
  }

  /** For instance a manager of resource 5 and a role called "manager:5". */
  lemma ColonInRoleCollides(hash: string -> string)
    ensures
      var a := Identity("c", "q", Some("manager:5"), None, Some("x"));
      var b := Identity("c", "q", Some("manager"), Some(5), Some("none:x"));
      !SameAudience(hash, a, b) && KeysMeet(hash, a, b)
  {
    assert Decimal.PrintInt(5) == "5";
    assert "manager:5" + ":" + ("none" + ":" + "x") == "manager" + ":" + ("5" + ":" + "none:x");
  }

  /** The three families never meet, whatever the identities. */
  lemma FamiliesDisjoint(hash: string -> string, a: Identity, b: Identity)
    ensures SqlKey(hash, a) != LockKey(hash, b)
    ensures SqlKey(hash, a) != ResultKey(hash, b)
    ensures LockKey(hash, a) != ResultKey(hash, b)
  {
    assert SqlKey(hash, a)[3] == 's';
    assert LockKey(hash, a)[3] == 'c' && LockKey(hash, b)[3] == 'c' && ResultKey(hash, b)[3] == 'c';
    assert LockKey(hash, a)[11] == ':';
    assert ResultKey(hash, b)[11] == '_';
  }

  /** The three keys of one identity, spelled out. */
  lemma KeysSpelled(question: string)
    ensures var hash := (q: string) => "0f";
      var id := Identity("c1", question, Some("hr"), Some(-42), None);
      SqlKey(hash, id) == "qw:sql_cache:" + "c1:0f:hr:-42:none" &&
      LockKey(hash, id) == "qw:coalesce:" + "c1:0f:hr:-42:none" &&
      ResultKey(hash, id) == "qw:coalesce_result:" + ("qw:coalesce:" + "c1:0f:hr:-42:none")
  {
    MinusFortyTwo();
    var hash := (q: string) => "0f";
    var id := Identity("c1", question, Some("hr"), Some(-42), None);
    hide Decimal.PrintInt;
    assert Tail(hash, id) == "c1" + ":" + ("0f" + ":" + ("hr" + ":" + ("-42" + ":" + "none")));
    TailSpelled();
    hide Tail;
  }

  lemma TailSpelled()
    ensures "c1" + ":" + ("0f" + ":" + ("hr" + ":" + ("-42" + ":" + "none"))) ==
      "c1:0f:hr:-42:none"
  {
    assert "-42" + ":" + "none" == "-42:none";
    assert "hr" + ":" + "-42:none" == "hr:-42:none";
    assert "0f" + ":" + "hr:-42:none" == "0f:hr:-42:none";
  }

  lemma MinusFortyTwo()
    ensures Decimal.PrintInt(-42) == "-42"
  {
    assert Decimal.Print(42) == Decimal.Print(4) + [Decimal.DigitChar(2)] == "42";
  }
}
