/** `when:` guards such as "validate.status == 'SUCCESS'". */
module Whens {
  import opened Collections
  import opened Graph
  import opened States
  import opened Strings

  function TrimQuotes(s: string): string {
    if s == [] then s
    else if s[0] == '\'' then TrimQuotes(s[1..])
    else if s[|s| - 1] == '\'' then TrimQuotes(s[..|s| - 1])
    else s
  }

  function StatusText(statuses: map<Id, Status>, job: Id): string {
    if job !in statuses then "UNKNOWN"
    else match statuses[job]
      case Succeeded(_) => "SUCCESS"
      case Failed(_, _) => "FAILED"
      case Skipped => "SKIPPED"
      case _ => "UNKNOWN"
  }

  datatype Guard = Guard(lhs: string, op: string, rhs: string)

  /** `splitn(3, ' ')`, kept only when there are three parts. */
  function Split(expr: string): Option<Guard> {
    var first := FirstOf(expr, ' ');
    if first.None? then None
    else
      var rest := expr[first.value + 1..];
      var second := FirstOf(rest, ' ');
      if second.None? then None
      else Some(Guard(expr[..first.value], rest[..second.value], TrimQuotes(rest[second.value + 1..])))
  }

  /** True when the job should run; anything that does not parse counts as true. */
  function EvalWhen(expr: string, statuses: map<Id, Status>): bool {
    var guard := Split(expr);
    if guard.None? then true
    else
      var Guard(lhs, op, rhs) := guard.value;
      var dot := LastOf(lhs, '.');
      if dot.None? || lhs[dot.value + 1..] != "status" then true
      else
        var actual := StatusText(statuses, lhs[..dot.value]);
        if op == "==" then actual == rhs
        else if op == "!=" then actual != rhs
        else true
  }

  lemma SplitAt(lhs: string, op: string, rhs: string)
    requires ' ' !in lhs && ' ' !in op
    ensures Split(lhs + " " + (op + " " + rhs)) == Some(Guard(lhs, op, TrimQuotes(rhs)))
  {
    var rest := op + " " + rhs;
    FirstAt(lhs, ' ', rest);
    assert (lhs + " " + rest)[..|lhs|] == lhs && (lhs + " " + rest)[|lhs| + 1..] == rest;
    FirstAt(op, ' ', rhs);
    assert rest[..|op|] == op && rest[|op| + 1..] == rhs;
  }

  lemma TrimQuoted(text: string)
    requires text != "" && text[0] != '\'' && text[|text| - 1] != '\''
    ensures TrimQuotes("'" + text + "'") == text
  {
    assert ("'" + text + "'")[1..] == text + "'";
    assert (text + "'")[..|text|] == text;
    assert TrimQuotes(text + "'") == TrimQuotes(text);
  }

  /** Quotes are stripped from both ends, all of them and nothing else. */
  lemma {:induction false} TrimQuotesExact(s: string) returns (left: string, right: string)
    ensures s == left + TrimQuotes(s) + right
    ensures forall c :: c in left || c in right ==> c == '\''
    ensures var r := TrimQuotes(s); r != "" ==> r[0] != '\'' && r[|r| - 1] != '\''
  {
    left, right := "", "";
    if s != [] {
      if s[0] == '\'' {
        left, right := TrimQuotesExact(s[1..]);
        assert s == [s[0]] + s[1..];
        left := [s[0]] + left;
      } else if s[|s| - 1] == '\'' {
        left, right := TrimQuotesExact(s[..|s| - 1]);
        assert s == s[..|s| - 1] + [s[|s| - 1]];
        right := right + [s[|s| - 1]];
      }
    }
  }

  /** What a guard that keeps its job from running looks like. */
  ghost predicate Refuses(expr: string, statuses: map<Id, Status>, job: Id, op: string, rest: string) {
    && expr == (job + "." + "status") + " " + (op + " " + rest)
    && ' ' !in job && ' ' !in op
    && ((op == "==" && StatusText(statuses, job) != TrimQuotes(rest))
        || (op == "!=" && StatusText(statuses, job) == TrimQuotes(rest)))
  }

  /** A guard is false only in this one way; whatever cannot be read that way is true. */
  lemma GuardFalseExactly(expr: string, statuses: map<Id, Status>)
    ensures !EvalWhen(expr, statuses) <==> exists job, op, rest :: Refuses(expr, statuses, job, op, rest)
  {
    if job, op, rest :| Refuses(expr, statuses, job, op, rest) {
      RefusedIsFalse(expr, statuses, job, op, rest);
    }
    if !EvalWhen(expr, statuses) {
      var job, op, rest := FalseIsRefused(expr, statuses);
    }
  }

  lemma RefusedIsFalse(expr: string, statuses: map<Id, Status>, job: Id, op: string, rest: string)
    requires Refuses(expr, statuses, job, op, rest)
    ensures !EvalWhen(expr, statuses)
  {
    var lhs := job + "." + "status";
    hide TrimQuotes, StatusText;
    LastAt(job, '.', "status");
    assert lhs[..|job|] == job && lhs[|job| + 1..] == "status";
    SplitAt(lhs, op, rest);
  }

  lemma SplitBack(expr: string) returns (rest: string)
    requires Split(expr).Some?
    ensures var g := Split(expr).value;
            && expr == g.lhs + " " + (g.op + " " + rest) && g.rhs == TrimQuotes(rest)
            && ' ' !in g.lhs && ' ' !in g.op
  {
    hide TrimQuotes, FirstOf;
    var first := FirstOf(expr, ' ').value;
    var tail := expr[first + 1..];
    var second := FirstOf(tail, ' ').value;
    rest := tail[second + 1..];
    SpaceAt(tail, second);
    SpaceAt(expr, first);
  }

  lemma SpaceAt(s: string, i: nat)
    requires i < |s| && s[i] == ' '
    ensures s == s[..i] + " " + s[i + 1..]
  {
  }

  lemma DotBack(lhs: string, dot: nat)
    requires dot < |lhs| && lhs[dot] == '.'
    ensures lhs == lhs[..dot] + "." + lhs[dot + 1..]
    ensures forall c :: c in lhs[..dot] ==> c in lhs
  {
  }

  lemma FalseIsRefused(expr: string, statuses: map<Id, Status>) returns (job: Id, op: string, rest: string)
    requires !EvalWhen(expr, statuses)
    ensures Refuses(expr, statuses, job, op, rest)
  {
    hide TrimQuotes, StatusText, FirstOf, LastOf, Split;
    rest := SplitBack(expr);
    var guard := Split(expr).value;
    var dot := LastOf(guard.lhs, '.').value;
    job, op := guard.lhs[..dot], guard.op;
    DotBack(guard.lhs, dot);
  }

  function Comparing(job: Id, op: string, text: string): string {
    (job + "." + "status") + " " + (op + " " + ("'" + text + "'"))
  }

  /** A well-written guard means what it says, dots in the job id included
      (children of a foreach job are called "job.0", "job.1", …). */
  lemma GuardMeaning(job: Id, op: string, text: string, statuses: map<Id, Status>)
    requires ' ' !in job && (op == "==" || op == "!=")
    requires text != "" && text[0] != '\'' && text[|text| - 1] != '\''
    ensures EvalWhen(Comparing(job, op, text), statuses) <==> ((StatusText(statuses, job) == text) <==> op == "==")
  {
    hide Split, TrimQuotes, StatusText;
    var lhs := job + "." + "status";
    LastAt(job, '.', "status");
    assert lhs[..|job|] == job && lhs[|job| + 1..] == "status";
    SplitAt(lhs, op, "'" + text + "'");
    TrimQuoted(text);
  }

  /** The one job whose status a guard looks at, if it is well-formed enough to look. */
  function GuardReads(expr: string): Option<Id> {
    var guard := Split(expr);
    if guard.None? then None
    else
      var lhs := guard.value.lhs;
      var dot := LastOf(lhs, '.');
      if dot.None? || lhs[dot.value + 1..] != "status" then None else Some(lhs[..dot.value])
  }

  /** And the text it compares that status with. */
  function GuardText(expr: string): string {
    if Split(expr).None? then "" else Split(expr).value.rhs
  }

  /** A guard only notices whether the text is the one it compares with. */
  lemma GuardNotices(expr: string, a: map<Id, Status>, b: map<Id, Status>)
    requires GuardReads(expr).Some? ==>
        var z, text := GuardReads(expr).value, GuardText(expr);
        StatusText(a, z) == text <==> StatusText(b, z) == text
    ensures EvalWhen(expr, a) == EvalWhen(expr, b)
  {
    hide StatusText, Split, TrimQuotes;
  }

  lemma GuardReadsOnly(expr: string, a: map<Id, Status>, b: map<Id, Status>)
    requires GuardReads(expr).Some? ==> StatusText(a, GuardReads(expr).value) == StatusText(b, GuardReads(expr).value)
    ensures EvalWhen(expr, a) == EvalWhen(expr, b)
  {
    hide StatusText, Split, TrimQuotes;
  }

  lemma NothingReadIsTrue(expr: string, a: map<Id, Status>)
    requires GuardReads(expr).None?
    ensures EvalWhen(expr, a)
  {
    hide TrimQuotes, StatusText;
  }

  lemma SourceHasNoSpace(expr: string)
    requires GuardReads(expr).Some?
    ensures ' ' !in GuardReads(expr).value
  {
    hide TrimQuotes;
    var rest := SplitBack(expr);
    var lhs := Split(expr).value.lhs;
    hide Split;
    DotBack(lhs, LastOf(lhs, '.').value);
  }

  lemma ComparingReads(z: Id, op: string, text: string)
    requires ' ' !in z && ' ' !in op
    requires text != "" && text[0] != '\'' && text[|text| - 1] != '\''
    ensures GuardReads(Comparing(z, op, text)) == Some(z) && GuardText(Comparing(z, op, text)) == text
  {
    hide Split, TrimQuotes;
    var lhs := z + "." + "status";
    LastAt(z, '.', "status");
    assert lhs[..|z|] == z && lhs[|z| + 1..] == "status";
    SplitAt(lhs, op, "'" + text + "'");
    TrimQuoted(text);
  }
}
