/** The activity log page: a list of log entries narrowed by a search text,
    a type choice and a severity choice, and the fixed badge and icon each
    severity and type is shown with. */
module LogsPage {
  import opened Types
  import opened Text

  datatype LogType = DeviceLog | UserLog | GroupLog | SystemLog
  datatype Severity = Info | Warning | Error | Success

  datatype LogEntry = LogEntry(
    id: string,
    timestamp: string,
    kind: LogType,
    action: string,
    severity: Severity,
    user: Option<string>,
    device: Option<string>,
    message: string,
    details: Option<string>)

  /** A select box: "all", or one value of the enumeration. */
  datatype Choice<T> = All | Only(value: T)

  predicate Chosen<T(==)>(c: Choice<T>, v: T) {
    c.All? || c.value == v
  }

  /** `s?.toLowerCase().includes(q.toLowerCase())` for an optional field. */
  predicate FieldMatches(s: Option<string>, q: string) {
    s.Some? && Includes(Lower(s.value), Lower(q))
  }

  /** The search: the query occurs, ignoring letter case, in the message,
      the device or the user. */
  predicate MatchesSearch(log: LogEntry, q: string) {
    Includes(Lower(log.message), Lower(q)) || FieldMatches(log.device, q) || FieldMatches(log.user, q)
  }

  /** The three conditions together. */
  predicate Passes(log: LogEntry, q: string, types: Choice<LogType>, severities: Choice<Severity>) {
    MatchesSearch(log, q) && Chosen(types, log.kind) && Chosen(severities, log.severity)
  }

  /** The three conditions as the callback handed to `filter`. */
  function Passing(q: string, types: Choice<LogType>, severities: Choice<Severity>): LogEntry -> bool {
    log => Passes(log, q, types, severities)
  }

  /** `logs.filter(p)`. */
  function Keep(logs: seq<LogEntry>, p: LogEntry -> bool): (r: seq<LogEntry>)
    ensures |r| <= |logs|
  {
    if logs == [] then []
    else (if p(logs[0]) then [logs[0]] else []) + Keep(logs[1..], p)
  }

  /** The `filteredLogs` memo. */
  function Filtered(logs: seq<LogEntry>, q: string, types: Choice<LogType>, severities: Choice<Severity>): (r: seq<LogEntry>)
    ensures |r| <= |logs|
  {
    Keep(logs, Passing(q, types, severities))
  }

  /** `filter` lists exactly the entries its callback accepts. */
  lemma {:induction false} KeepMembers(logs: seq<LogEntry>, p: LogEntry -> bool, x: LogEntry)
    ensures x in Keep(logs, p) <==> x in logs && p(x)
  {
    if logs != [] {
      KeepMembers(logs[1..], p, x);
      assert x in logs <==> x == logs[0] || x in logs[1..];
    }
  }

  /** `filter` keeps the order of the list: the filter of two lists one
      after the other is the two filters one after the other. */
  lemma {:induction false} KeepAppend(a: seq<LogEntry>, b: seq<LogEntry>, p: LogEntry -> bool)
    ensures Keep(a + b, p) == Keep(a, p) + Keep(b, p)
  {
    if a != [] {
      assert (a + b)[1..] == a[1..] + b;
      KeepAppend(a[1..], b, p);
    } else {
      assert a + b == b;
    }
  }

  /** `filter` keeps each accepted entry as often as it occurs, and drops
      every other one. */
  lemma {:induction false} KeepCounts(logs: seq<LogEntry>, p: LogEntry -> bool, x: LogEntry)
    ensures multiset(Keep(logs, p))[x] == if p(x) then multiset(logs)[x] else 0
  {
    if logs != [] {
      var rest := Keep(logs[1..], p);
      KeepCounts(logs[1..], p, x);
      assert logs == [logs[0]] + logs[1..];
      assert multiset(logs) == multiset([logs[0]]) + multiset(logs[1..]);
      if p(logs[0]) {
        assert Keep(logs, p) == [logs[0]] + rest;
        assert multiset([logs[0]] + rest) == multiset([logs[0]]) + multiset(rest);
      } else {
        assert Keep(logs, p) == rest;
      }
    }
  }

  /** With no query and both choices at "all", every entry is listed. */
  lemma {:induction false} NoFilterKeepsAll(logs: seq<LogEntry>)
    ensures Filtered(logs, "", All, All) == logs
  {
    if logs != [] {
      NoFilterKeepsAll(logs[1..]);
    }
  }

  /** The search ignores the letter case of the query. */
  lemma SearchIgnoresCase(log: LogEntry, q: string)
    ensures MatchesSearch(log, Lower(q)) == MatchesSearch(log, q)
  {
    LowerOfLowerCase(Lower(q));
  }

  /** Narrowing a choice never lets more through. */
  lemma ChoiceNarrows(logs: seq<LogEntry>, q: string, t: LogType, severities: Choice<Severity>)
    ensures forall x :: x in Filtered(logs, q, Only(t), severities) ==> x in Filtered(logs, q, All, severities) && x.kind == t
  {
    forall x | x in Filtered(logs, q, Only(t), severities)
      ensures x in Filtered(logs, q, All, severities) && x.kind == t
    {
      KeepMembers(logs, Passing(q, Only(t), severities), x);
      KeepMembers(logs, Passing(q, All, severities), x);
    }
  }

  datatype Icon = RadioIcon | UsersIcon | LayersIcon | ActivityIcon | InfoIcon | CheckCircleIcon | AlertCircleIcon | XCircleIcon

  datatype Badge = Badge(color: string, icon: Icon)

  /** `getSeverityBadge`: one colour and icon per severity. */
  function SeverityBadge(s: Severity): (b: Badge)
    ensures b.icon in {InfoIcon, CheckCircleIcon, AlertCircleIcon, XCircleIcon}
  {
    match s
    case Info => Badge("bg-blue-100 text-blue-800", InfoIcon)
    case Success => Badge("bg-green-100 text-green-800", CheckCircleIcon)
    case Warning => Badge("bg-yellow-100 text-yellow-800", AlertCircleIcon)
    case Error => Badge("bg-red-100 text-red-800", XCircleIcon)
  }

  /** `getTypeIcon`. */
  function TypeIcon(t: LogType): (i: Icon)
    ensures i in {RadioIcon, UsersIcon, LayersIcon, ActivityIcon}
  {
    match t
    case DeviceLog => RadioIcon
    case UserLog => UsersIcon
    case GroupLog => LayersIcon
    case SystemLog => ActivityIcon
  }

  /** Distinct severities look different, and so do distinct types. */
  lemma LookupsDistinguish(s1: Severity, s2: Severity, t1: LogType, t2: LogType)
    ensures s1 != s2 ==> SeverityBadge(s1) != SeverityBadge(s2) && SeverityBadge(s1).icon != SeverityBadge(s2).icon
    ensures t1 != t2 ==> TypeIcon(t1) != TypeIcon(t2)
  {
  }
}
