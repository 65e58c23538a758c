/**
 * The preview script's `.env` loader and its sample alert. Each line of the
 * file is trimmed; blank lines and `#` comments are skipped, as are lines
 * without an `=` after at least one character; the key is the trimmed text
 * before the first `=`, the value the trimmed rest with one leading and one
 * trailing quote removed. Assignments go into the process environment in
 * file order, until the runtime refuses one, which ends the loop. The sample alert has the notification reports' layout.
 */
module EnvFile {
  import opened Wrappers
  import opened Text
  import opened Calendar
  import opened Store
  import Batcher
  import TestAlerta
  import Interactions

  predicate IsQuote(c: char) { c == '"' || c == '\'' }

  /** `replace(/^["']|["']$/g, "")`: one quote off the front and one off the back, independently. */
  function StripQuotes(v: string): (r: string)
    ensures |v| - 2 <= |r| <= |v|
    ensures (v == [] || (!IsQuote(v[0]) && !IsQuote(v[|v| - 1]))) ==> r == v
  {
    var a := if |v| > 0 && IsQuote(v[0]) then 1 else 0;
    var b := if |v| > a && IsQuote(v[|v| - 1]) then |v| - 1 else |v|;
    v[a..b]
  }

  /** A quoted value loses exactly its two quotes, whatever it holds. */
  lemma StripQuotesOfQuoted(q: char, x: string, q': char)
    requires IsQuote(q) && IsQuote(q')
    ensures StripQuotes([q] + x + [q']) == x
  {
    assert ([q] + x + [q'])[1..|x| + 1] == x;
  }

  /** What one line assigns: a key and a value, or nothing. */
  type Assignment = Option<(string, string)>

  /** The assignment a line makes. */
  function ParseLine(line: string): Assignment {
    ParseTrimmed(Trim(line))
  }

  /** The assignment of an already trimmed line. */
  function ParseTrimmed(trimmed: string): Assignment {
    if trimmed == [] || trimmed[0] == '#' then None
    else
      var eq := IndexOf(trimmed, "=");
      if eq > 0 then Some((Trim(Slice(trimmed, 0, eq)), StripQuotes(Trim(SliceFrom(trimmed, eq + 1)))))
      else None
  }

  /** Trimming text whose first character is not white space keeps that character. */
  lemma TrimKeepsFirst(s: string)
    requires s != [] && !IsSpace(s[0])
    ensures Trim(s) != []
  {
    TrimStartKeeps(s);
    TrimEndShape(s);
  }

  /** A line is skipped when it is blank, a comment, or has no `=` after its first character. */
  lemma SkippedLines(line: string)
    ensures Trim(line) == [] ==> ParseLine(line) == None
    ensures Trim(line) != [] && Trim(line)[0] == '#' ==> ParseLine(line) == None
    ensures (forall j :: 0 <= j < |Trim(line)| ==> Trim(line)[j] != '=') ==> ParseLine(line) == None
    ensures Trim(line) != [] && Trim(line)[0] == '=' ==> ParseLine(line) == None
  {
    var t := Trim(line);
    if forall j :: 0 <= j < |t| ==> t[j] != '=' {
      IndexOfAbsentChar(t, '=');
    }
    if t != [] && t[0] == '=' {
      IndexOfFirstChar(t, '=', 0);
    }
  }

  /** The key parsed from a line that starts with a non-space character is non-empty and unpadded. */
  lemma ParsedKeyOfTrimmed(t: string)
    requires t != [] && !IsSpace(t[0]) && ParseTrimmed(t).Some?
    ensures ParseTrimmed(t).value.0 != [] && Trim(ParseTrimmed(t).value.0) == ParseTrimmed(t).value.0
  {
    var eq := IndexOf(t, "=");
    assert 0 < eq <= |t|;
    var before := Slice(t, 0, eq);
    SlicePrefix(t, eq);
    assert before[0] == t[0];
    TrimKeepsFirst(before);
    TrimTwice(before);
  }

  /** A parsed key is never empty and has no white space around it. */
  lemma ParsedKeyIsTrimmed(line: string)
    requires ParseLine(line).Some?
    ensures ParseLine(line).value.0 != [] && Trim(ParseLine(line).value.0) == ParseLine(line).value.0
  {
    ParsedKeyOfTrimmed(Trim(line));
  }

  /** A trimmed line with its first `=` at `eq`, after at least one character, assigns the pieces around it. */
  lemma ParseTrimmedAt(t: string, eq: nat)
    requires 0 < eq < |t| && t[0] != '#' && t[eq] == '='
    requires forall j :: 0 <= j < eq ==> t[j] != '='
    ensures ParseTrimmed(t) == Some((Trim(t[..eq]), StripQuotes(Trim(t[eq + 1..]))))
  {
    IndexOfFirstChar(t, '=', eq);
    assert Slice(t, 0, eq) == t[..eq];
    assert SliceFrom(t, eq + 1) == t[eq + 1..];
  }

  /** An unpadded line with its first `=` at `eq`, after at least one character, assigns the pieces around it. */
  lemma ParseUnpaddedAt(line: string, eq: nat)
    requires 0 < eq < |line| && line[0] != '#' && line[eq] == '=' && !IsSpace(line[0]) && !IsSpace(line[|line| - 1])
    requires forall j :: 0 <= j < eq ==> line[j] != '='
    ensures ParseLine(line) == Some((Trim(line[..eq]), StripQuotes(Trim(line[eq + 1..]))))
  {
    TrimUnpadded(line);
    ParseTrimmedAt(line, eq);
  }

  /** A quoted value, trimmed and unquoted, is the text between the quotes. */
  lemma QuotedValue(q: char, value: string)
    requires IsQuote(q)
    ensures StripQuotes(Trim([q] + value + [q])) == value
  {
    TrimUnpadded([q] + value + [q]);
    StripQuotesOfQuoted(q, value, q);
  }

  /**
   * A well-formed assignment: the key is everything before the first `=`,
   * and the value is the rest, trimmed and with its edge quotes removed;
   * later `=` signs stay in the value.
   */
  lemma ParseAssignment(key: string, value: string)
    requires key != [] && !IsSpace(key[0]) && !IsSpace(key[|key| - 1]) && key[0] != '#'
    requires forall j :: 0 <= j < |key| ==> key[j] != '='
    requires value == [] || !IsSpace(value[|value| - 1])
    ensures ParseLine(key + "=" + value) == Some((key, StripQuotes(Trim(value))))
  {
    var line := key + "=" + value;
    assert line[..|key|] == key && line[|key| + 1..] == value;
    ParseUnpaddedAt(line, |key|);
    TrimUnpadded(key);
  }

  /** A quoted value comes back exactly, `=` signs, quotes and spaces inside it included. */
  lemma ParseQuotedAssignment(key: string, q: char, value: string)
    requires key != [] && !IsSpace(key[0]) && !IsSpace(key[|key| - 1]) && key[0] != '#'
    requires forall j :: 0 <= j < |key| ==> key[j] != '='
    requires IsQuote(q)
    ensures ParseLine(key + "=" + ([q] + value + [q])) == Some((key, value))
  {
    ParseAssignment(key, [q] + value + [q]);
    QuotedValue(q, value);
  }

  /** The environment after `assignments`, in order, over `env`. */
  function Apply(env: map<string, string>, assignments: seq<Assignment>): map<string, string> {
    if assignments == [] then env
    else
      var before := Apply(env, assignments[..|assignments| - 1]);
      match assignments[|assignments| - 1]
      case Some((k, v)) => before[k := v]
      case None => before
  }

  /** Applying one more assignment. */
  lemma ApplyPrefix(env: map<string, string>, assignments: seq<Assignment>, i: nat)
    requires i < |assignments|
    ensures Apply(env, assignments[..i + 1]) ==
              if assignments[i].Some? then Apply(env, assignments[..i])[assignments[i].value.0 := assignments[i].value.1]
              else Apply(env, assignments[..i])
  {
    assert assignments[..i + 1][..i] == assignments[..i];
  }

  /** The value of the last of `assignments` that sets `key`. */
  function LastAssignment(assignments: seq<Assignment>, key: string): Option<string> {
    if assignments == [] then None
    else
      match assignments[|assignments| - 1]
      case Some((k, v)) => if k == key then Some(v) else LastAssignment(assignments[..|assignments| - 1], key)
      case None => LastAssignment(assignments[..|assignments| - 1], key)
  }

  /** The last assignment of a key wins; a key nothing assigns keeps its earlier value or stays unset. */
  lemma {:induction false} LastAssignmentWins(env: map<string, string>, assignments: seq<Assignment>, key: string)
    ensures LastAssignment(assignments, key).Some? ==>
              key in Apply(env, assignments) && Apply(env, assignments)[key] == LastAssignment(assignments, key).value
    ensures LastAssignment(assignments, key).None? ==>
              (key in Apply(env, assignments) <==> key in env)
              && (key in env ==> Apply(env, assignments)[key] == env[key])
  {
    if assignments != [] {
      LastAssignmentWins(env, assignments[..|assignments| - 1], key);
    }
  }

  /** The assignment of every line, in order. */
  function ParseLines(lines: seq<string>): (r: seq<Assignment>)
    ensures |r| == |lines|
    ensures forall i :: 0 <= i < |lines| ==> r[i] == ParseLine(lines[i])
  {
    seq(|lines|, i requires 0 <= i < |lines| => ParseLine(lines[i]))
  }

  /**
   * `Deno.env.set(key, value)` throws when the key is empty or holds `=` or
   * NUL, or the value holds NUL. A parsed key is never empty and holds no
   * `=`, so for the loader only NUL matters.
   */
  predicate SetRefuses(key: string, value: string) {
    key == [] || '=' in key || '\0' in key || '\0' in value
  }

  predicate Refused(a: Assignment) {
    a.Some? && SetRefuses(a.value.0, a.value.1)
  }

  /**
   * How many assignments go in before the first refused one: a throw inside
   * the loop ends it, and the `catch` around it swallows the error.
   */
  function AcceptedPrefix(assignments: seq<Assignment>): (n: nat)
    ensures n <= |assignments|
    ensures forall i :: 0 <= i < n ==> !Refused(assignments[i])
    ensures n < |assignments| ==> Refused(assignments[n])
  {
    if assignments == [] || Refused(assignments[0]) then 0
    else 1 + AcceptedPrefix(assignments[1..])
  }

  /** A parsed key holds no `=`: it is cut before the first one. */
  lemma ParsedKeyHasNoEquals(line: string)
    requires ParseLine(line).Some?
    ensures '=' !in ParseLine(line).value.0
  {
    var t := Trim(line);
    var eq := IndexOf(t, "=");
    SlicePrefix(t, eq);
    var before := t[..eq];
    forall j | 0 <= j < eq ensures before[j] != '=' {
      assert !OccursAt(t, "=", j);
      assert t[j..j + 1] == [t[j]];
    }
    TrimRemovesOnlySpace(before);
    var a, b :| 0 <= a <= b <= |before| && Trim(before) == before[a..b];
    forall k | 0 <= k < |Trim(before)| ensures Trim(before)[k] != '=' {
      assert Trim(before)[k] == before[a + k];
    }
  }

  /** The runtime refuses a line's assignment exactly when its key or value holds NUL. */
  lemma RefusedOnlyForNul(line: string)
    ensures Refused(ParseLine(line)) <==>
              ParseLine(line).Some? && ('\0' in ParseLine(line).value.0 || '\0' in ParseLine(line).value.1)
  {
    if ParseLine(line).Some? {
      ParsedKeyIsTrimmed(line);
      ParsedKeyHasNoEquals(line);
    }
  }

  /** One more line of the loop: a refused assignment is where it stops, any other keeps it going. */
  lemma AcceptedStep(assignments: seq<Assignment>, i: nat)
    requires i < |assignments| && i <= AcceptedPrefix(assignments)
    ensures Refused(assignments[i]) ==> i == AcceptedPrefix(assignments)
    ensures !Refused(assignments[i]) ==> i < AcceptedPrefix(assignments)
  {
  }

  /** The process environment as the script sees it. */
  class Environment {
    var vars: map<string, string>

    constructor (initial: map<string, string>)
      ensures vars == initial
    {
      vars := initial;
    }

    /**
     * `loadEnv`: `content` is the file's text, or None when it does not
     * exist or cannot be read, in which case nothing changes. The lines'
     * assignments go in order up to the first one the runtime refuses, where
     * the loop stops.
     */
    method LoadEnv(content: Option<string>)
      modifies this
      ensures content.None? ==> vars == old(vars)
      ensures content.Some? ==>
                var parsed := ParseLines(Split(content.value, '\n'));
                vars == Apply(old(vars), parsed[..AcceptedPrefix(parsed)])
    {
      if content.None? {
        return;
      }
      var lines := Split(content.value, '\n');
      ghost var parsed := ParseLines(lines);
      ghost var n := AcceptedPrefix(parsed);
      for i := 0 to |lines|
        invariant i <= n
        invariant vars == Apply(old(vars), parsed[..i])
      {
        ApplyPrefix(old(vars), parsed, i);
        AcceptedStep(parsed, i);
        var trimmed := Trim(lines[i]);
        if trimmed != [] && trimmed[0] != '#' {
          var eq := IndexOf(trimmed, "=");
          if eq > 0 {
            var key := Trim(Slice(trimmed, 0, eq));
            var val := StripQuotes(Trim(SliceFrom(trimmed, eq + 1)));
            assert parsed[i] == Some((key, val));
            if SetRefuses(key, val) {
              assert Refused(parsed[i]);
              return;
            }
            vars := vars[key := val];
          } else {
            assert parsed[i] == None;
          }
        } else {
          assert parsed[i] == None;
        }
      }
      assert parsed[..|lines|] == parsed;
    }
  }

  // ---------------------------------------------------------------------------
  // The sample alert
  // ---------------------------------------------------------------------------

  /** The sample row: id 999, the demo job's name and its failure message for `businessDay`. */
  function SampleError(businessDay: string, now: int): Entry {
    Entry(999, ErrorRow("", TestAlerta.FUNCTION_NAME, TestAlerta.FailMessage(businessDay), None, now,
                        Some(businessDay), Pending, None))
  }

  /** The alert the script sends for the UTC date `today`: a one-row report in the notification layout. */
  function SampleReport(today: CalendarDate, now: int): Batcher.Report {
    Batcher.BuildReport(Format(today), [SampleError(Format(today), now)])
  }

  /**
   * The sample alert counts one function, lists the demo job, and carries
   * button ids that the interaction endpoint reads back as a retry and a
   * rejection of that very day.
   */
  lemma SampleReportButtons(today: CalendarDate, now: int)
    ensures SampleReport(today, now).count == 1
    ensures SampleReport(today, now).bullets == [Batcher.Bullet(TestAlerta.FUNCTION_NAME)]
    ensures SampleReport(today, now).retryId == "retry_all:" + Format(today)
    ensures SampleReport(today, now).rejectId == "reject_all:" + Format(today)
    ensures Interactions.ButtonOf(SampleReport(today, now).retryId) == Interactions.Retry(Format(today))
    ensures Interactions.ButtonOf(SampleReport(today, now).rejectId) == Interactions.Reject(Format(today))
  {
    assert Format(today) != [] by {
      assert |Format(today)| >= 6;
    }
    Interactions.ReportButtonsRoundTrip(Format(today));
  }
}
