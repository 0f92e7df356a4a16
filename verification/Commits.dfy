/**
 The level a commit message asks for (scripts/next_version.py: classify_commit, required_bump), for
 ASCII messages.
 */
module Commits {
  import opened Prelude
  import opened VersionOrder

  datatype Level = Patch | Minor | Major

  function Rank(l: Level): int {
    match l case Patch => 0 case Minor => 1 case Major => 2
  }

  const NOISE: set<string> := {
    "chore", "docs", "doc", "ci", "test", "tests", "style", "build", "merge", "revert", "wip", "release", "bump"
  }

  // ---------------------------------------------------------------- one message

  predicate IsLetter(c: char) {
    'a' <= c <= 'z' || 'A' <= c <= 'Z'
  }

  function Letters(s: string): (n: nat)
    ensures n <= |s| && (forall i :: 0 <= i < n ==> IsLetter(s[i])) && (n < |s| ==> !IsLetter(s[n]))
  {
    if |s| == 0 || !IsLetter(s[0]) then 0 else Letters(s[1..]) + 1
  }

  datatype Header = Header(kind: string, bang: bool)

  /** What follows an optional scope in parentheses; None when the parenthesis is not closed. */
  function AfterScope(s: string): Option<string> {
    if |s| == 0 || s[0] != '(' then Some(s) else if ')' in s then Some(Rest(s, ')')) else None
  }

  /** `(!)?:\s*(.+)$`: whether there is a bang, None when it does not match. */
  function ParseTail(s: string): Option<bool> {
    var bang := |s| > 0 && s[0] == '!';
    var rest := if bang then s[1..] else s;
    if |rest| > 1 && rest[0] == ':' then Some(bang) else None
  }

  /** `^([A-Za-z]+)(?:\(([^)]*)\))?(!)?:\s*(.+)$` on one stripped line. */
  function ParseHeader(h: string): Option<Header> {
    var n := Letters(h);
    var after := AfterScope(h[n..]);
    if n == 0 || after.None? || ParseTail(after.value).None? then None
    else Some(Header(h[..n], ParseTail(after.value).value))
  }

  predicate StartsBreaking(s: string) {
    "BREAKING CHANGE:" <= s || "BREAKING-CHANGE:" <= s
  }

  /** Some line of the text announces a breaking change. */
  predicate BreakingLine(text: string)
    decreases |text|
  {
    StartsBreaking(text) || ('\n' in text && |Rest(text, '\n')| < |text| && BreakingLine(Rest(text, '\n')))
  }

  /** re.split(r"[\s:(]", s, maxsplit=1)[0] */
  function FirstWord(s: string): string {
    if |s| == 0 || IsSpace(s[0]) || s[0] == ':' || s[0] == '(' then "" else [s[0]] + FirstWord(s[1..])
  }

  function KindLevel(kind: string, bang: bool): Option<Level> {
    if bang then Some(Major)
    else if Lower(kind) == "feat" then Some(Minor)
    else if Lower(kind) in NOISE then None
    else Some(Patch)
  }

  function Classify(message: string): Option<Level> {
    var m := Strip(message);
    if m == "" then None
    else
      var header, body := Head(m, '\n'), Rest(m, '\n');
      if BreakingLine(body) || StartsBreaking(header) then Some(Major)
      else
        match ParseHeader(Strip(header))
        case Some(h) => KindLevel(h.kind, h.bang)
        case None => if FirstWord(Lower(Strip(header))) in NOISE then None else Some(Patch)
  }

  // ---------------------------------------------------------------- all messages

  function Higher(best: Option<Level>, level: Option<Level>): Option<Level> {
    if level.Some? && (best.None? || Rank(level.value) > Rank(best.value)) then level else best
  }

  function HighestLevel(commits: seq<string>): Option<Level> {
    if |commits| == 0 then None else Higher(HighestLevel(commits[..|commits| - 1]), Classify(commits[|commits| - 1]))
  }

  /** No commit asks for more, and some commit asks for it. */
  ghost predicate IsHighest(commits: seq<string>, best: Option<Level>) {
    && (best.None? <==> forall c :: c in commits ==> Classify(c).None?)
    && (best.Some? ==> exists c :: c in commits && Classify(c) == best)
    && (best.Some? ==> forall c :: c in commits && Classify(c).Some? ==> Rank(Classify(c).value) <= Rank(best.value))
  }

  lemma OneMoreCommit(commits: seq<string>, c: string)
    requires IsHighest(commits, HighestLevel(commits))
    ensures HighestLevel(commits + [c]) == Higher(HighestLevel(commits), Classify(c))
    ensures IsHighest(commits + [c], HighestLevel(commits + [c]))
  {
    var best := HighestLevel(commits);
    assert (commits + [c])[..|commits|] == commits;
    assert c in commits + [c];
    if best.Some? {
      var top :| top in commits && Classify(top) == best;
      assert top in commits + [c];
    }
  }

  /** The highest level any commit asks for, none exactly when all are noise. */
  method RequiredBump(commits: seq<string>) returns (best: Option<Level>)
    ensures best == HighestLevel(commits) && IsHighest(commits, best)
  {
    best := None;
    var i := 0;
    while i < |commits|
      invariant i <= |commits| && best == HighestLevel(commits[..i]) && IsHighest(commits[..i], best)
    {
      OneMoreCommit(commits[..i], commits[i]);
      assert commits[..i + 1] == commits[..i] + [commits[i]];
      var level := Classify(commits[i]);
      if level.Some? && (best.None? || Rank(level.value) > Rank(best.value)) {
        best := level;
      }
      i := i + 1;
    }
    assert commits[..|commits|] == commits;
  }

  // ---------------------------------------------------------------- conventional messages

  function PrintTail(bang: bool, subject: string): (t: string)
    ensures |t| > 0 && t[0] in {'!', ':'}
  {
    (if bang then ['!'] else "") + ([':', ' '] + subject)
  }

  function PrintScope(scope: Option<string>): (t: string)
    ensures |t| > 0 ==> t[0] == '('
  {
    if scope.Some? then ['('] + scope.value + [')'] else ""
  }

  /** `type(scope)!: subject` */
  function Print(kind: string, scope: Option<string>, bang: bool, subject: string): string {
    kind + (PrintScope(scope) + PrintTail(bang, subject))
  }

  predicate IsKind(kind: string) {
    |kind| > 0 && forall i | 0 <= i < |kind| :: IsLetter(kind[i])
  }

  predicate IsLine(s: string) {
    |s| > 0 && '\n' !in s && !IsSpace(s[|s| - 1])
  }

  lemma {:induction false} LettersOf(kind: string, rest: string)
    requires (forall i :: 0 <= i < |kind| ==> IsLetter(kind[i])) && |rest| > 0 && !IsLetter(rest[0])
    ensures Letters(kind + rest) == |kind|
  {
    if |kind| > 0 {
      assert (kind + rest)[1..] == kind[1..] + rest;
      LettersOf(kind[1..], rest);
    } else {
      assert kind + rest == rest;
    }
  }

  lemma ScopeOf(scope: Option<string>, tail: string)
    requires (scope.Some? ==> ')' !in scope.value) && |tail| > 0 && tail[0] != '('
    ensures AfterScope(PrintScope(scope) + tail) == Some(tail)
  {
    if scope.Some? {
      var open := ['('] + scope.value;
      var s := PrintScope(scope) + tail;
      assert s == open + [')'] + tail;
      HeadAppend(open, ')', tail);
      assert s[|open|] == ')';
    } else {
      assert "" + tail == tail;
    }
  }

  lemma TailParses(bang: bool, subject: string)
    ensures ParseTail(PrintTail(bang, subject)) == Some(bang)
  {
    var colon := [':', ' '] + subject;
    assert bang ==> PrintTail(bang, subject)[1..] == colon;
    assert !bang ==> PrintTail(bang, subject) == colon;
  }

  lemma PrintParses(kind: string, scope: Option<string>, bang: bool, subject: string)
    requires IsKind(kind) && (scope.Some? ==> ')' !in scope.value)
    ensures ParseHeader(Print(kind, scope, bang, subject)) == Some(Header(kind, bang))
  {
    var tail := PrintTail(bang, subject);
    var middle := PrintScope(scope) + tail;
    LettersOf(kind, middle);
    Cut(kind, middle);
    ScopeOf(scope, tail);
    TailParses(bang, subject);
  }

  lemma Cut(a: string, b: string)
    ensures (a + b)[..|a|] == a && (a + b)[|a|..] == b
  {
  }

  lemma NotThatPrefix(kind: string, rest: string, b: string)
    requires IsKind(kind) && |rest| > 0 && rest[0] in {'(', '!', ':'}
    requires |b| > 8 && (forall i :: 0 <= i < 8 ==> IsLetter(b[i])) && b[8] !in {'(', '!', ':'} && !IsLetter(b[8])
    ensures !(b <= kind + rest)
  {
    var h, n := kind + rest, |kind|;
    assert h[n] == rest[0];
    assert n > 8 ==> h[8] == kind[8];
    assert n < 8 ==> IsLetter(b[n]);
  }

  /** A conventional header never announces a breaking change by itself: its type ends too soon. */
  lemma NotBreaking(kind: string, rest: string)
    requires IsKind(kind) && |rest| > 0 && rest[0] in {'(', '!', ':'}
    ensures !StartsBreaking(kind + rest)
  {
    NotThatPrefix(kind, rest, "BREAKING CHANGE:");
    NotThatPrefix(kind, rest, "BREAKING-CHANGE:");
  }

  lemma StripNothing(s: string)
    requires |s| > 0 && !IsSpace(s[0]) && !IsSpace(s[|s| - 1])
    ensures Strip(s) == s
  {
  }

  lemma PrintIsLine(kind: string, scope: Option<string>, bang: bool, subject: string)
    requires IsKind(kind) && (scope.Some? ==> '\n' !in scope.value) && IsLine(subject)
    ensures var h := Print(kind, scope, bang, subject);
            IsLine(h) && IsLetter(h[0]) && !IsSpace(h[0])
  {
    var h := Print(kind, scope, bang, subject);
    assert h[0] == kind[0];
    assert h[|h| - 1] == subject[|subject| - 1];
  }

  lemma PrintNotBreaking(kind: string, scope: Option<string>, bang: bool, subject: string)
    requires IsKind(kind)
    ensures !StartsBreaking(Print(kind, scope, bang, subject))
  {
    NotBreaking(kind, PrintScope(scope) + PrintTail(bang, subject));
  }

  /** A conventional message, `type(scope)!: subject` with or without a body, is classified by its bang,
      by a line of its body announcing a breaking change, and otherwise by its type alone. */
  lemma ConventionalLevel(kind: string, scope: Option<string>, bang: bool, subject: string, body: string)
    requires IsKind(kind) && (scope.Some? ==> ')' !in scope.value && '\n' !in scope.value) && IsLine(subject)
    requires body != "" ==> !IsSpace(body[|body| - 1])
    ensures var header := Print(kind, scope, bang, subject);
            Classify(if body == "" then header else header + ['\n'] + body)
            == if BreakingLine(body) then Some(Major) else KindLevel(kind, bang)
  {
    var header := Print(kind, scope, bang, subject);
    PrintIsLine(kind, scope, bang, subject);
    PrintParses(kind, scope, bang, subject);
    PrintNotBreaking(kind, scope, bang, subject);
    ClassifyLines(header, body, kind, bang);
  }

  lemma ClassifyLines(header: string, body: string, kind: string, bang: bool)
    requires IsLine(header) && !IsSpace(header[0]) && !StartsBreaking(header) && ParseHeader(header) == Some(Header(kind, bang))
    requires body != "" ==> !IsSpace(body[|body| - 1])
    ensures Classify(if body == "" then header else header + ['\n'] + body)
            == if BreakingLine(body) then Some(Major) else KindLevel(kind, bang)
  {
    var m := if body == "" then header else header + ['\n'] + body;
    StripNothing(header);
    if body == "" {
      HeadAppend(header, '\n', "");
    } else {
      HeadAppend(header, '\n', body);
      assert m[0] == header[0] && m[|m| - 1] == body[|body| - 1];
    }
    StripNothing(m);
  }
}
