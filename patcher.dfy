/**
 * The deploy-time source patcher. Given a function's slug and the text of
 * its `index.ts`, it adds the `notifyError` import after the first import
 * line, rewrites the first `} catch (err) {` so that the caught value is
 * normalised and reported under the slug, and then redirects the uses of
 * `err` that follow the patterns `error: err.message`,
 * `error: err?.message ?? err`, `, err)` and `: err)` to the normalised
 * error. Every step is a pure function of the text.
 */
module Patcher {
  import opened Wrappers
  import opened Text

  /** The name the patched handler imports and calls. */
  const NOTIFY_ERROR: string := "notifyError"

  /** The line the patcher adds. */
  const IMPORT: string := "import { " + NOTIFY_ERROR + " } from \"./_shared/error_monitor.ts\";"

  /** The handler head whose first occurrence is rewritten. */
  const CATCH_HEAD: string := "} catch (err) {"

  /** What the first catch head, with the white space after it, becomes. */
  function CatchBlock(slug: string): string {
    CATCH_HEAD + LINE_NORMALIZE + NotifyCall(slug) + "\n    "
  }

  /** The line that turns the caught value into an `Error`. */
  const LINE_NORMALIZE: string := "\n    const normalizedError = err instanceof Error ? err : new Error(String(err));\n"

  /** The reporting call the catch block makes. */
  function NotifyCall(slug: string): string {
    "    await notifyError('" + slug + "', normalizedError);"
  }

  // ---------------------------------------------------------------------------
  // White-space runs (`\s*`)
  // ---------------------------------------------------------------------------

  /** The length of the longest run of white space starting at `k`. */
  function WsRun(s: string, k: nat): (n: nat)
    requires k <= |s|
    ensures k + n <= |s|
    ensures forall i :: k <= i < k + n ==> IsSpace(s[i])
    ensures k + n == |s| || !IsSpace(s[k + n])
    decreases |s| - k
  {
    if k < |s| && IsSpace(s[k]) then 1 + WsRun(s, k + 1) else 0
  }

  /** Skipping the run is what `trimStart` does to the rest of the text. */
  lemma {:induction false} WsRunIsTrimStart(s: string, k: nat)
    requires k <= |s|
    ensures TrimStart(s[k..]) == s[k + WsRun(s, k)..]
    decreases |s| - k
  {
    if k < |s| && IsSpace(s[k]) {
      assert s[k..][0] == s[k] && s[k..][1..] == s[k + 1..];
      TrimStartSkips(s[k..]);
      WsRunIsTrimStart(s, k + 1);
    } else {
      TrimStartKeeps(s[k..]);
    }
  }

  // ---------------------------------------------------------------------------
  // Import insertion
  // ---------------------------------------------------------------------------

  /**
   * Where the import goes: just past the first newline at or after the
   * first `import ` (the text's first newline when there is no `import `),
   * or the very start when no such newline exists.
   */
  function ImportPoint(s: string): (p: nat)
    ensures p <= |s|
  {
    IndexOfFrom(s, "\n", IndexOf(s, "import ")) + 1
  }

  /** The insertion point starts a line, and no earlier newline lies between the first `import ` and it. */
  lemma ImportPointStartsLine(s: string)
    ensures ImportPoint(s) == 0 || s[ImportPoint(s) - 1] == '\n'
    ensures var from := ClampStart(IndexOf(s, "import "), |s|);
            (ImportPoint(s) == 0 ==> forall j :: from <= j < |s| ==> s[j] != '\n')
            && (ImportPoint(s) > 0 ==> from < ImportPoint(s)
                                       && forall j :: from <= j < ImportPoint(s) - 1 ==> s[j] != '\n')
  {
    var from := ClampStart(IndexOf(s, "import "), |s|);
    var p := ImportPoint(s);
    if p > 0 {
      assert s[p - 1..p][0] == s[p - 1];
    }
    forall j | from <= j < |s| && (p == 0 || j < p - 1)
      ensures s[j] != '\n'
    {
      assert !OccursAt(s, "\n", j);
      assert s[j..j + 1] == [s[j]];
    }
  }

  /**
   * Step one: a text that mentions `notifyError` anywhere is kept;
   * otherwise the import line and a blank line go in at the insertion
   * point, and the text on either side is kept as it was.
   */
  function InsertImport(s: string): (r: string)
    ensures Includes(s, NOTIFY_ERROR) ==> r == s
    ensures !Includes(s, NOTIFY_ERROR) ==>
              var p := ImportPoint(s);
              |r| == |s| + |IMPORT| + 2
              && r[..p] == s[..p]
              && r[p..p + |IMPORT| + 2] == IMPORT + "\n\n"
              && r[p + |IMPORT| + 2..] == s[p..]
  {
    if Includes(s, NOTIFY_ERROR) then s
    else
      var p := ImportPoint(s);
      SlicePrefix(s, p);
      var before, line, after := Slice(s, 0, p), IMPORT + "\n\n", SliceFrom(s, p);
      ConcatParts(before, line, after);
      before + line + after
  }

  /** After step one the text always mentions `notifyError`. */
  lemma InsertImportMentionsNotifyError(s: string)
    ensures Includes(InsertImport(s), NOTIFY_ERROR)
  {
    if !Includes(s, NOTIFY_ERROR) {
      var p := ImportPoint(s);
      assert Includes(IMPORT, NOTIFY_ERROR) by {
        IncludesIffOccurs(NOTIFY_ERROR, NOTIFY_ERROR, 0);
        IncludesWithin("import { ", NOTIFY_ERROR, " } from \"./_shared/error_monitor.ts\";", NOTIFY_ERROR);
      }
      IncludesWithin(Slice(s, 0, p), IMPORT, "\n\n" + SliceFrom(s, p), NOTIFY_ERROR);
      assert InsertImport(s) == Slice(s, 0, p) + IMPORT + ("\n\n" + SliceFrom(s, p));
    }
  }

  /** Patching the import twice adds nothing the first time did not. */
  lemma InsertImportIdempotent(s: string)
    ensures InsertImport(InsertImport(s)) == InsertImport(s)
  {
    InsertImportMentionsNotifyError(s);
  }

  // ---------------------------------------------------------------------------
  // The catch rewrite (first occurrence only)
  // ---------------------------------------------------------------------------

  /**
   * Step two: the first catch head and the white space after it become
   * the catch block; a text without one is kept.
   */
  function RewriteCatch(slug: string, s: string): (r: string)
    ensures !Includes(s, CATCH_HEAD) ==> r == s
    ensures Includes(s, CATCH_HEAD) ==> Includes(r, NotifyCall(slug))
  {
    var i := IndexOf(s, CATCH_HEAD);
    if i < 0 then s
    else
      var k := i + |CATCH_HEAD|;
      var tail := s[k + WsRun(s, k)..];
      assert Includes(CatchBlock(slug), NotifyCall(slug)) by {
        IncludesIffOccurs(NotifyCall(slug), NotifyCall(slug), 0);
        IncludesWithin(CATCH_HEAD + LINE_NORMALIZE, NotifyCall(slug), "\n    ", NotifyCall(slug));
      }
      IncludesWithin(s[..i], CatchBlock(slug), tail, NotifyCall(slug));
      s[..i] + CatchBlock(slug) + tail
  }

  /**
   * The catch rewrite keeps everything before the first catch head, puts
   * the block in its place and keeps the rest after the white space,
   * later catch heads included.
   */
  lemma RewriteCatchAt(slug: string, s: string, i: nat)
    requires OccursAt(s, CATCH_HEAD, i)
    requires forall j :: 0 <= j < i ==> !OccursAt(s, CATCH_HEAD, j)
    ensures RewriteCatch(slug, s) == s[..i] + CatchBlock(slug) + TrimStart(s[i + |CATCH_HEAD|..])
  {
    assert IndexOf(s, CATCH_HEAD) == i;
    WsRunIsTrimStart(s, i + |CATCH_HEAD|);
  }

  // ---------------------------------------------------------------------------
  // Global replacement
  // ---------------------------------------------------------------------------

  /**
   * The four global patterns: a literal between two word boundaries
   * (`\b…\b`), or a separator, optional white space and `err)`.
   */
  datatype Pattern = WholeWord(lit: string) | SeparatorThenErr(sep: char)

  predicate ValidPattern(p: Pattern) {
    p.WholeWord? ==> p.lit != []
  }

  /** `\b` at `k`: exactly one of the characters on either side is a word character. */
  predicate Boundary(s: string, k: nat)
    requires k <= |s|
  {
    (k > 0 && IsWordChar(s[k - 1])) != (k < |s| && IsWordChar(s[k]))
  }

  /** The length of the match of `p` that starts at `k`, if one does. */
  function MatchLength(s: string, k: nat, p: Pattern): (r: Option<nat>)
    requires k <= |s| && ValidPattern(p)
    ensures r.Some? ==> 0 < r.value && k + r.value <= |s|
  {
    match p
    case WholeWord(lit) =>
      if OccursAt(s, lit, k) && Boundary(s, k) && Boundary(s, k + |lit|) then Some(|lit|) else None
    case SeparatorThenErr(sep) =>
      if k < |s| && s[k] == sep && OccursAt(s, "err)", k + 1 + WsRun(s, k + 1)) then Some(1 + WsRun(s, k + 1) + 4)
      else None
  }

  /** A separator pattern matches exactly a separator, a white-space run that ends the spaces, and `err)`. */
  lemma SeparatorMatch(s: string, k: nat, sep: char, w: nat)
    requires k + 1 + w <= |s| && s[k] == sep
    requires forall i :: k + 1 <= i < k + 1 + w ==> IsSpace(s[i])
    requires OccursAt(s, "err)", k + 1 + w)
    ensures MatchLength(s, k, SeparatorThenErr(sep)) == Some(1 + w + 4)
  {
    var n := WsRun(s, k + 1);
    assert s[k + 1 + w] == 'e' by {
      assert s[k + 1 + w..k + 1 + w + 4][0] == s[k + 1 + w];
    }
    assert n <= w;
    assert n == w;
  }

  /** `s.replace(p, rep)` with the `g` flag, from position `k`: each leftmost match, without overlap. */
  function ReplaceAllFrom(s: string, p: Pattern, rep: string, k: nat): string
    requires k <= |s| && ValidPattern(p)
    decreases |s| - k
  {
    if k == |s| then []
    else
      match MatchLength(s, k, p)
      case Some(n) => rep + ReplaceAllFrom(s, p, rep, k + n)
      case None => [s[k]] + ReplaceAllFrom(s, p, rep, k + 1)
  }

  function ReplaceAll(s: string, p: Pattern, rep: string): string
    requires ValidPattern(p)
  {
    ReplaceAllFrom(s, p, rep, 0)
  }

  /** A stretch with no match is copied as it is, and the scan goes on from its end. */
  lemma {:induction false} ReplaceAllKeepsUnmatched(s: string, p: Pattern, rep: string, k: nat, m: nat)
    requires k <= m <= |s| && ValidPattern(p)
    requires forall j :: k <= j < m ==> MatchLength(s, j, p).None?
    ensures ReplaceAllFrom(s, p, rep, k) == s[k..m] + ReplaceAllFrom(s, p, rep, m)
    decreases m - k
  {
    if k < m {
      ReplaceAllOutsideMatch(s, p, rep, k);
      ReplaceAllKeepsUnmatched(s, p, rep, k + 1, m);
      ConsSlice(s, k, m, ReplaceAllFrom(s, p, rep, m));
    }
  }

  /** Where the pattern never matches, the text is kept. */
  lemma ReplaceAllNoMatch(s: string, p: Pattern, rep: string)
    requires ValidPattern(p)
    requires forall j :: 0 <= j < |s| ==> MatchLength(s, j, p).None?
    ensures ReplaceAll(s, p, rep) == s
  {
    ReplaceAllKeepsUnmatched(s, p, rep, 0, |s|);
  }

  /** The text before the first match is kept, and that match becomes `rep`. */
  lemma ReplaceAllFirstMatch(s: string, p: Pattern, rep: string, m: nat)
    requires m < |s| && ValidPattern(p)
    requires forall j :: 0 <= j < m ==> MatchLength(s, j, p).None?
    requires MatchLength(s, m, p).Some?
    ensures ReplaceAll(s, p, rep) == s[..m] + (rep + ReplaceAllFrom(s, p, rep, m + MatchLength(s, m, p).value))
  {
    ReplaceAllKeepsUnmatched(s, p, rep, 0, m);
    ReplaceAllAtMatch(s, p, rep, m);
    assert s[0..m] == s[..m];
  }

  /** Outside a match, the character is copied and the scan moves on by one. */
  lemma ReplaceAllOutsideMatch(s: string, p: Pattern, rep: string, k: nat)
    requires k < |s| && ValidPattern(p) && MatchLength(s, k, p).None?
    ensures ReplaceAllFrom(s, p, rep, k) == [s[k]] + ReplaceAllFrom(s, p, rep, k + 1)
  {
  }

  /** At a match, the match becomes `rep` and the scan resumes right after it. */
  lemma ReplaceAllAtMatch(s: string, p: Pattern, rep: string, k: nat)
    requires k < |s| && ValidPattern(p) && MatchLength(s, k, p).Some?
    ensures ReplaceAllFrom(s, p, rep, k) == rep + ReplaceAllFrom(s, p, rep, k + MatchLength(s, k, p).value)
  {
  }

  // ---------------------------------------------------------------------------
  // The whole patch
  // ---------------------------------------------------------------------------

  const ERR_MESSAGE: Pattern := WholeWord("error: err.message")
  const ERR_OPTIONAL_MESSAGE: Pattern := WholeWord("error: err?.message ?? err")
  const COMMA_ERR: Pattern := SeparatorThenErr(',')
  const COLON_ERR: Pattern := SeparatorThenErr(':')

  /** The four global rewrites, in the order the script applies them. */
  function RedirectErr(s: string): string {
    var a := ReplaceAll(s, ERR_MESSAGE, "error: normalizedError.message");
    var b := ReplaceAll(a, ERR_OPTIONAL_MESSAGE, "error: normalizedError.message");
    var c := ReplaceAll(b, COMMA_ERR, ", normalizedError)");
    ReplaceAll(c, COLON_ERR, ": normalizedError)")
  }

  /** The patched text for `slug`. */
  function Rewrite(slug: string, s: string): string {
    RedirectErr(RewriteCatch(slug, InsertImport(s)))
  }

  /** A text none of whose positions starts a match of `p`. */
  predicate NoMatch(s: string, p: Pattern)
    requires ValidPattern(p)
  {
    forall j :: 0 <= j < |s| ==> MatchLength(s, j, p).None?
  }

  /** A text with nothing to redirect comes through the four rewrites unchanged. */
  lemma RedirectErrNothingToDo(s: string)
    requires NoMatch(s, ERR_MESSAGE) && NoMatch(s, ERR_OPTIONAL_MESSAGE)
    requires NoMatch(s, COMMA_ERR) && NoMatch(s, COLON_ERR)
    ensures RedirectErr(s) == s
  {
    ReplaceAllNoMatch(s, ERR_MESSAGE, "error: normalizedError.message");
    ReplaceAllNoMatch(s, ERR_OPTIONAL_MESSAGE, "error: normalizedError.message");
    ReplaceAllNoMatch(s, COMMA_ERR, ", normalizedError)");
    ReplaceAllNoMatch(s, COLON_ERR, ": normalizedError)");
  }

  /**
   * An already patched function, one that mentions `notifyError`, has no
   * catch head and nothing to redirect, is left exactly as it was.
   */
  lemma RewriteOfPatchedSource(slug: string, s: string)
    requires Includes(s, NOTIFY_ERROR) && !Includes(s, CATCH_HEAD)
    requires NoMatch(s, ERR_MESSAGE) && NoMatch(s, ERR_OPTIONAL_MESSAGE)
    requires NoMatch(s, COMMA_ERR) && NoMatch(s, COLON_ERR)
    ensures Rewrite(slug, s) == s
  {
    RedirectErrNothingToDo(s);
  }

  /** What the script ends with: a usage error, or the patched text on standard output. */
  datatype PatchResult = UsageError | Patched(out: string)

  /** The script for a slug and an input text; an empty slug or an empty input is a usage error. */
  function Patch(slug: string, original: string): (r: PatchResult)
    ensures r.UsageError? <==> slug == [] || original == []
    ensures r.Patched? ==> r.out == Rewrite(slug, original)
  {
    if slug == [] || original == [] then UsageError else Patched(Rewrite(slug, original))
  }
}
