/**
 * Input sanitising, the CSRF token comparison and the in-memory audit log
 * with its filtered, newest-first query.
 */
module Security {
  import opened Js

  // ----------------------------------------------------------- sanitising

  /** `.replace(/[<>]/g, "")`: every angle bracket removed, everything else kept in order. */
  function RemoveAngles(s: string): (r: string)
    ensures '<' !in r && '>' !in r
    ensures |r| <= |s|
    ensures forall c :: c in r <==> c in s && c != '<' && c != '>'
  {
    if s == [] then []
    else
      var rest := RemoveAngles(s[1..]);
      assert forall c :: c in s <==> c == s[0] || c in s[1..];
      if s[0] == '<' || s[0] == '>' then rest else [s[0]] + rest
  }

  /**
   * `sanitizeInput`: trim, then drop the angle brackets. The result holds no
   * bracket, is no longer than the input, and its characters are the
   * non-bracket characters of the trimmed input.
   */
  function SanitizeInput(input: string): (r: string)
    ensures '<' !in r && '>' !in r
    ensures |r| <= |input|
    ensures forall c :: c in r <==> c in Trim(input) && c != '<' && c != '>'
  {
    RemoveAngles(Trim(input))
  }

  /** Text without brackets passes through the removal untouched. */
  lemma {:induction false} RemoveAnglesKeepsClean(s: string)
    requires '<' !in s && '>' !in s
    ensures RemoveAngles(s) == s
  {
    if s != [] {
      RemoveAnglesKeepsClean(s[1..]);
    }
  }

  /** Removal commutes with concatenation. */
  lemma {:induction false} RemoveAnglesAppend(a: string, b: string)
    ensures RemoveAngles(a + b) == RemoveAngles(a) + RemoveAngles(b)
  {
    if a == [] {
      assert a + b == b;
    } else {
      assert (a + b)[0] == a[0];
      assert (a + b)[1..] == a[1..] + b;
      RemoveAnglesAppend(a[1..], b);
    }
  }

  /** Text that neither starts nor ends with whitespace is its own trim. */
  lemma TrimKeepsUnpadded(s: string)
    requires s != [] && !IsSpace(s[0]) && !IsSpace(s[|s| - 1])
    ensures Trim(s) == s
  {
    assert TrimStart(s) == s;
    assert TrimEnd(s) == s;
  }

  /** Already trimmed, bracket-free input is returned unchanged. */
  lemma SanitizeKeepsCleanInput(input: string)
    requires Trim(input) == input && '<' !in input && '>' !in input
    ensures SanitizeInput(input) == input
  {
    RemoveAnglesKeepsClean(input);
  }

  /**
   * Sanitising is not stable: the brackets go after the trim, so whitespace
   * in front of a trailing bracket survives once and is trimmed the next time.
   */
  lemma SanitizeNotIdempotent()
    ensures SanitizeInput("a <") == "a "
    ensures SanitizeInput("a ") == "a"
    ensures SanitizeInput(SanitizeInput("a <")) != SanitizeInput("a <")
  {
    SanitizeTrailingBracket();
    SanitizeTrailingSpace();
    assert "a " != "a";
  }

  lemma SanitizeTrailingBracket()
    ensures SanitizeInput("a <") == "a "
  {
    TrimKeepsBracketTail();
    RemoveBracketTail();
  }

  lemma TrimKeepsBracketTail()
    ensures Trim("a <") == "a <"
  {
    var x := "a <";
    assert !IsSpace(x[0]) && !IsSpace(x[2]);
    TrimKeepsUnpadded(x);
  }

  lemma RemoveBracketTail()
    ensures RemoveAngles("a <") == "a "
  {
    var y := "a ";
    assert "a <" == y + "<";
    RemoveAnglesAppend(y, "<");
    RemoveAnglesKeepsClean(y);
    assert RemoveAngles("<") == [];
  }

  lemma SanitizeTrailingSpace()
    ensures SanitizeInput("a ") == "a"
  {
    TrimDropsTrailingSpace();
    RemoveAnglesKeepsClean("a");
  }

  lemma TrimDropsTrailingSpace()
    ensures Trim("a ") == "a"
  {
    var y := "a ";
    assert IsSpace(y[1]) && !IsSpace(y[0]);
    assert TrimStart(y) == y;
    assert y[..1] == "a";
    assert TrimEnd(y) == TrimEnd("a");
    assert TrimEnd("a") == "a";
  }

  // ----------------------------------------------------------------- CSRF

  /** `validateCSRFToken`: exact string equality (no trimming, no case folding). */
  function ValidateCsrfToken(token: string, sessionToken: string): (ok: bool)
    ensures ok <==> |token| == |sessionToken| && forall k :: 0 <= k < |token| ==> token[k] == sessionToken[k]
  {
    token == sessionToken
  }

  /** Tokens differing only by case or surrounding whitespace are rejected. */
  lemma CsrfTokenIsExact()
    ensures !ValidateCsrfToken("abc", "ABC")
    ensures !ValidateCsrfToken("abc ", "abc")
    ensures ValidateCsrfToken("abc", "abc")
  {
    assert "abc"[0] != "ABC"[0];
  }

  // ------------------------------------------------------------ audit log

  /** The request headers `logAuditEvent` reads, when a request is given. */
  datatype Request = Request(forwardedFor: Option<string>, userAgent: Option<string>)

  /** One `AuditLog` entry; `details` is kept as string pairs and `timestamp` in milliseconds. */
  datatype AuditLog = AuditLog(
    id: string,
    userId: string,
    action: string,
    resource: string,
    details: map<string, string>,
    ipAddress: string,
    userAgent: string,
    timestamp: int)

  /** `request?.headers.get(h) || "unknown"`: a missing request, header or empty value reads "unknown". */
  function HeaderOrUnknown(h: Option<string>): (r: string)
    ensures r != ""
    ensures h.Some? && h.value != "" ==> r == h.value
    ensures h.None? || h.value == "" ==> r == "unknown"
  {
    if h.None? || h.value == "" then "unknown" else h.value
  }

  function IpAddress(request: Option<Request>): string {
    HeaderOrUnknown(if request.Some? then request.value.forwardedFor else None)
  }

  function UserAgent(request: Option<Request>): string {
    HeaderOrUnknown(if request.Some? then request.value.userAgent else None)
  }

  /** The optional filters of `getAuditLogs`; dates are millisecond timestamps. */
  datatype Filters = Filters(
    userId: Option<string>,
    action: Option<string>,
    resource: Option<string>,
    startDate: Option<int>,
    endDate: Option<int>)

  /** A string filter applies when given and truthy (non-empty); a date filter whenever given. */
  predicate Active(f: Option<string>) {
    f.Some? && f.value != ""
  }

  /** No filter applies, so `filtered` is still the stored array itself. */
  predicate NoFilterApplies(f: Filters) {
    !Active(f.userId) && !Active(f.action) && !Active(f.resource) && f.startDate.None? && f.endDate.None?
  }

  /** The entry passes every applying filter; both dates are inclusive. */
  predicate Matches(log: AuditLog, f: Filters) {
    && (Active(f.userId) ==> log.userId == f.userId.value)
    && (Active(f.action) ==> log.action == f.action.value)
    && (Active(f.resource) ==> log.resource == f.resource.value)
    && (f.startDate.Some? ==> log.timestamp >= f.startDate.value)
    && (f.endDate.Some? ==> log.timestamp <= f.endDate.value)
  }

  /** `Array.prototype.filter`: the entries satisfying p, in order. */
  function Keep(logs: seq<AuditLog>, p: AuditLog -> bool): (r: seq<AuditLog>)
    ensures forall x :: x in r <==> x in logs && p(x)
    ensures multiset(r) <= multiset(logs)
    ensures |r| <= |logs|
  {
    if logs == [] then []
    else
      var init := Keep(logs[..|logs| - 1], p);
      var last := logs[|logs| - 1];
      assert logs == logs[..|logs| - 1] + [last];
      assert forall x :: x in logs <==> x in logs[..|logs| - 1] || x == last;
      if p(last) then init + [last] else init
  }

  /** The tests of the five `filter` calls; each is used only when its filter is given. */
  function UserIs(u: Option<string>): AuditLog -> bool {
    (x: AuditLog) => u.Some? && x.userId == u.value
  }

  function ActionIs(a: Option<string>): AuditLog -> bool {
    (x: AuditLog) => a.Some? && x.action == a.value
  }

  function ResourceIs(r: Option<string>): AuditLog -> bool {
    (x: AuditLog) => r.Some? && x.resource == r.value
  }

  function NotBefore(t: Option<int>): AuditLog -> bool {
    (x: AuditLog) => t.Some? && x.timestamp >= t.value
  }

  function NotAfter(t: Option<int>): AuditLog -> bool {
    (x: AuditLog) => t.Some? && x.timestamp <= t.value
  }

  /** One link of the chain: `filter(p)` when its filter applies, otherwise the list as it is. */
  function Stage(logs: seq<AuditLog>, applies: bool, p: AuditLog -> bool): seq<AuditLog> {
    if applies then Keep(logs, p) else logs
  }

  /** The chain of `filter` calls, each one only when its filter applies. */
  function Filtered(logs: seq<AuditLog>, f: Filters): seq<AuditLog> {
    var byUser := Stage(logs, Active(f.userId), UserIs(f.userId));
    var byAction := Stage(byUser, Active(f.action), ActionIs(f.action));
    var byResource := Stage(byAction, Active(f.resource), ResourceIs(f.resource));
    var fromStart := Stage(byResource, f.startDate.Some?, NotBefore(f.startDate));
    Stage(fromStart, f.endDate.Some?, NotAfter(f.endDate))
  }

  /** An entry survives the filters exactly when it is stored and matches them; none is duplicated. */
  lemma FilteredMeaning(logs: seq<AuditLog>, f: Filters)
    ensures forall x :: x in Filtered(logs, f) <==> x in logs && Matches(x, f)
    ensures multiset(Filtered(logs, f)) <= multiset(logs)
    ensures NoFilterApplies(f) ==> Filtered(logs, f) == logs
  {
  }

  /** Newest first. */
  predicate SortedDesc(s: seq<AuditLog>) {
    forall i, j :: 0 <= i < j < |s| ==> s[i].timestamp >= s[j].timestamp
  }

  /** Places x after every entry at least as new, before the first older one. */
  function InsertDesc(x: AuditLog, s: seq<AuditLog>): (r: seq<AuditLog>)
    ensures multiset(r) == multiset(s) + multiset{x}
    ensures |r| == |s| + 1
  {
    if s == [] then [x]
    else if s[0].timestamp < x.timestamp then [x] + s
    else
      assert s == [s[0]] + s[1..];
      [s[0]] + InsertDesc(x, s[1..])
  }

  /**
   * The stable newest-first order `sort((a, b) => b.timestamp - a.timestamp)`
   * produces: each entry is inserted after the equally old ones before it.
   */
  function SortDesc(s: seq<AuditLog>): (r: seq<AuditLog>)
    ensures |r| == |s|
  {
    if s == [] then [] else InsertDesc(s[|s| - 1], SortDesc(s[..|s| - 1]))
  }

  /** Entries no newer than t. */
  predicate NoNewerThan(s: seq<AuditLog>, t: int) {
    forall i :: 0 <= i < |s| ==> s[i].timestamp <= t
  }

  /** Inserting an entry no newer than t into entries no newer than t keeps them all no newer than t. */
  lemma {:induction false} InsertDescBounded(x: AuditLog, s: seq<AuditLog>, t: int)
    requires x.timestamp <= t && NoNewerThan(s, t)
    ensures NoNewerThan(InsertDesc(x, s), t)
  {
    if s != [] && s[0].timestamp >= x.timestamp {
      InsertDescBounded(x, s[1..], t);
    }
  }

  /** Inserting into a newest-first list keeps it newest first. */
  lemma {:induction false} InsertDescSorted(x: AuditLog, s: seq<AuditLog>)
    requires SortedDesc(s)
    ensures SortedDesc(InsertDesc(x, s))
  {
    if s != [] {
      if s[0].timestamp < x.timestamp {
        assert NoNewerThan(s, x.timestamp);
      } else {
        InsertDescSorted(x, s[1..]);
        InsertDescBounded(x, s[1..], s[0].timestamp);
        assert InsertDesc(x, s) == [s[0]] + InsertDesc(x, s[1..]);
      }
    }
  }

  /** The sorted result is newest first and holds exactly the entries it was given. */
  lemma {:induction false} SortDescCorrect(s: seq<AuditLog>)
    ensures SortedDesc(SortDesc(s))
    ensures multiset(SortDesc(s)) == multiset(s)
  {
    SortDescSorted(s);
    SortDescPermutes(s);
  }

  lemma {:induction false} SortDescSorted(s: seq<AuditLog>)
    ensures SortedDesc(SortDesc(s))
  {
    if s != [] {
      SortDescSorted(s[..|s| - 1]);
      InsertDescSorted(s[|s| - 1], SortDesc(s[..|s| - 1]));
    }
  }

  lemma {:induction false} SortDescPermutes(s: seq<AuditLog>)
    ensures multiset(SortDesc(s)) == multiset(s)
  {
    if s != [] {
      var init, last := s[..|s| - 1], s[|s| - 1];
      SortDescPermutes(init);
      assert s == init + [last];
    }
  }

  /** The module-level `auditLogs` array. */
  class AuditStore {
    var logs: seq<AuditLog>

    constructor()
      ensures logs == []
    {
      logs := [];
    }

    /**
     * `logAuditEvent`: append one entry. The random id and the clock are
     * parameters; the address and agent come from the request or read "unknown".
     */
    method LogAuditEvent(id: string, now: int, userId: string, action: string, resource: string,
                         details: map<string, string>, request: Option<Request>)
      modifies this
      ensures logs == old(logs) + [AuditLog(id, userId, action, resource, details, IpAddress(request), UserAgent(request), now)]
    {
      var log := AuditLog(id, userId, action, resource, details, IpAddress(request), UserAgent(request), now);
      logs := logs + [log];
    }

    /**
     * `getAuditLogs`: the matching entries newest first. When no filter
     * applies the sort runs on the stored array itself and reorders it.
     */
    method GetAuditLogs(f: Filters) returns (result: seq<AuditLog>)
      modifies this
      ensures result == SortDesc(Filtered(old(logs), f))
      ensures logs == if NoFilterApplies(f) then result else old(logs)
    {
      var filtered := logs;
      if Active(f.userId) {
        filtered := Keep(filtered, UserIs(f.userId));
      }
      if Active(f.action) {
        filtered := Keep(filtered, ActionIs(f.action));
      }
      if Active(f.resource) {
        filtered := Keep(filtered, ResourceIs(f.resource));
      }
      if f.startDate.Some? {
        filtered := Keep(filtered, NotBefore(f.startDate));
      }
      if f.endDate.Some? {
        filtered := Keep(filtered, NotAfter(f.endDate));
      }
      result := SortDesc(filtered);
      if NoFilterApplies(f) {
        logs := result;
      }
    }
  }

  /**
   * What a query returns: only matching entries, newest first, none more
   * often than stored; an unfiltered query leaves the same entries stored.
   */
  lemma QueryProperties(logs: seq<AuditLog>, f: Filters)
    ensures var r := SortDesc(Filtered(logs, f));
      && (forall x :: x in r <==> x in logs && Matches(x, f))
      && SortedDesc(r)
      && multiset(r) <= multiset(logs)
      && (NoFilterApplies(f) ==> multiset(r) == multiset(logs))
  {
    FilteredMeaning(logs, f);
    SortDescCorrect(Filtered(logs, f));
    var r := SortDesc(Filtered(logs, f));
    assert forall x :: x in r <==> x in multiset(r);
    assert forall x :: x in Filtered(logs, f) <==> x in multiset(Filtered(logs, f));
  }

  /** `filter` distributes over concatenation. */
  lemma {:induction false} KeepAppend(a: seq<AuditLog>, b: seq<AuditLog>, p: AuditLog -> bool)
    ensures Keep(a + b, p) == Keep(a, p) + Keep(b, p)
  {
    if b == [] {
      assert a + b == a;
    } else {
      var init := b[..|b| - 1];
      assert (a + b)[..|a + b| - 1] == a + init;
      KeepAppend(a, init, p);
    }
  }

  lemma StageAppend(a: seq<AuditLog>, b: seq<AuditLog>, applies: bool, p: AuditLog -> bool)
    ensures Stage(a + b, applies, p) == Stage(a, applies, p) + Stage(b, applies, p)
  {
    if applies {
      KeepAppend(a, b, p);
    }
  }

  /** The filter chain distributes over concatenation: old and new entries are filtered apart. */
  lemma FilteredAppend(a: seq<AuditLog>, b: seq<AuditLog>, f: Filters)
    ensures Filtered(a + b, f) == Filtered(a, f) + Filtered(b, f)
  {
    var a1, b1 := Stage(a, Active(f.userId), UserIs(f.userId)), Stage(b, Active(f.userId), UserIs(f.userId));
    StageAppend(a, b, Active(f.userId), UserIs(f.userId));
    var a2, b2 := Stage(a1, Active(f.action), ActionIs(f.action)), Stage(b1, Active(f.action), ActionIs(f.action));
    StageAppend(a1, b1, Active(f.action), ActionIs(f.action));
    var a3, b3 := Stage(a2, Active(f.resource), ResourceIs(f.resource)), Stage(b2, Active(f.resource), ResourceIs(f.resource));
    StageAppend(a2, b2, Active(f.resource), ResourceIs(f.resource));
    var a4, b4 := Stage(a3, f.startDate.Some?, NotBefore(f.startDate)), Stage(b3, f.startDate.Some?, NotBefore(f.startDate));
    StageAppend(a3, b3, f.startDate.Some?, NotBefore(f.startDate));
    StageAppend(a4, b4, f.endDate.Some?, NotAfter(f.endDate));
  }

  /** A part of the single entry x is that entry or nothing. */
  lemma SubSingleton(m: multiset<AuditLog>, x: AuditLog, keep: bool)
    requires m <= multiset{x}
    requires x in m <==> keep
    ensures m == if keep then multiset{x} else multiset{}
  {
    if keep {
      assert m[x] == 1;
      assert forall y :: y != x ==> m[y] == 0;
    } else {
      assert forall y :: m[y] == 0;
    }
  }

  /** A single entry passes the filter chain exactly when it matches the filters. */
  lemma FilteredOne(x: AuditLog, f: Filters)
    ensures multiset(Filtered([x], f)) == if Matches(x, f) then multiset{x} else multiset{}
  {
    FilteredMeaning([x], f);
    var r := Filtered([x], f);
    assert x in r <==> x in multiset(r);
    SubSingleton(multiset(r), x, Matches(x, f));
  }

  /**
   * Logging an entry and then querying: the entry is in the answer exactly
   * when it matches the filters, and the answer gains that one entry and
   * nothing else compared with the same query before the entry was logged.
   */
  lemma LogThenQuery(before: seq<AuditLog>, entry: AuditLog, f: Filters)
    ensures entry in SortDesc(Filtered(before + [entry], f)) <==> Matches(entry, f)
    ensures multiset(SortDesc(Filtered(before + [entry], f)))
      == multiset(SortDesc(Filtered(before, f))) + if Matches(entry, f) then multiset{entry} else multiset{}
  {
    FilteredAppend(before, [entry], f);
    FilteredOne(entry, f);
    QueryProperties(before + [entry], f);
    SortDescPermutes(Filtered(before + [entry], f));
    SortDescPermutes(Filtered(before, f));
  }

}
