/**
 * The fields `createJiraTicket` (audit.js) sends to the tracker for one vulnerability:
 * the summary, the inline description with its "N/A" fallbacks, the issue type and the
 * parent epic. Evaluating the fields throws a TypeError when the record has no severity,
 * no tree versions or no dependents; that is the `Err` outcome here.
 */
module Ticket {
  import opened Wrappers
  import opened Text
  import opened AuditDecode

  /** The `fields` object of the creation request. */
  datatype Issue = Issue(
    projectKey: string,
    summary: string,
    description: string,
    issueType: string,
    parentKey: string)

  /** Which field expression throws, in evaluation order. */
  datatype ComposeError = SeverityMissing | TreeVersionsMissing | DependentsMissing

  const IssueType: string := "Code Task"
  const SummaryInfix: string := "] Vulnerability in "
  const Fallback: string := "N/A"

  /** The summary line: the upper-cased severity in square brackets, then
      "Vulnerability in" and the module name. */
  function Summary(severity: string, moduleName: string): (s: string)
    ensures |s| == |severity| + |moduleName| + 20
    ensures s[0] == '[' && s[1..|severity| + 1] == Upper(severity)
    ensures s[|severity| + 1..|severity| + 20] == SummaryInfix
    ensures s[|severity| + 20..] == moduleName
  {
    "[" + Upper(severity) + SummaryInfix + moduleName
  }

  /** Where an upper-cased prefix and two copies of the infix sit in one string: the
      infix starts with "] Vulnerability", whose lower-case 'u' cannot fall inside the
      prefix and whose first three characters do not overlap themselves. */
  lemma InfixPlacement(s: string, up: string, a: nat, b: nat)
    requires b + 20 <= |s| && a + 20 <= |s| && |up| == b
    requires s[a + 1..a + 20] == SummaryInfix && s[b + 1..b + 20] == SummaryInfix
    requires s[1..b + 1] == up && forall i :: 0 <= i < |up| ==> !IsLower(up[i])
    ensures a >= b
  {
    assert s[b + 1] == s[b + 1..b + 20][0] == ']';
    assert s[a + 2] == s[a + 1..a + 20][1] == ' ';
    assert s[a + 3] == s[a + 1..a + 20][2] == 'V';
    assert s[a + 4] == s[a + 1..a + 20][3] == 'u';
    assert forall i :: 1 <= i <= b ==> s[i] == up[i - 1];
  }

  /** Two summaries that agree were built from severities of one length. */
  lemma SummarySeverityLength(sev1: string, mod1: string, sev2: string, mod2: string)
    requires Summary(sev1, mod1) == Summary(sev2, mod2)
    ensures |sev1| >= |sev2|
  {
    var s := Summary(sev1, mod1);
    InfixPlacement(s, Upper(sev2), |sev1|, |sev2|);
  }

  /** The summary gives back the module name and the upper-cased severity: summaries of
      different modules never coincide. */
  lemma SummaryInjective(sev1: string, mod1: string, sev2: string, mod2: string)
    requires Summary(sev1, mod1) == Summary(sev2, mod2)
    ensures |sev1| == |sev2| && mod1 == mod2 && Upper(sev1) == Upper(sev2)
  {
    SummarySeverityLength(sev1, mod1, sev2, mod2);
    SummarySeverityLength(sev2, mod2, sev1, mod1);
    var s := Summary(sev1, mod1);
    assert mod1 == s[|sev1| + 20..];
    assert Upper(sev1) == s[1..|sev1| + 1];
  }

  /** The case in which the severity is written does not matter to the summary. */
  lemma SummaryCaseInsensitive(severity: string, moduleName: string)
    ensures Summary(Upper(severity), moduleName) == Summary(severity, moduleName)
  {
    UpperIdempotent(severity);
  }

  /** The severity part of the summary holds no lower-case letter. */
  lemma SummaryUpperCased(severity: string, moduleName: string)
    ensures forall i :: 1 <= i <= |severity| ==> !IsLower(Summary(severity, moduleName)[i])
  {
    var s := Summary(severity, moduleName);
    forall i | 1 <= i <= |severity| ensures !IsLower(s[i]) {
      assert s[i] == s[1..|severity| + 1][i - 1] == Upper(severity)[i - 1];
    }
  }

  /** A string, or the fallback "N/A" when it is empty. */
  function OrFallback(text: string): (r: string)
    ensures r != ""
    ensures text != "" ==> r == text
    ensures text == "" ==> r == Fallback
  {
    if text == "" then Fallback else text
  }

  /** The elements joined with a comma and a space, or "N/A" when that text is empty. */
  function ListText(items: seq<string>): (r: string)
    ensures r != ""
    ensures Join(items, ", ") != "" ==> r == Join(items, ", ")
  {
    OrFallback(Join(items, ", "))
  }

  /** A list renders as "N/A" exactly when it has no element or a single empty one
      (or when its joined text happens to read "N/A"). */
  lemma ListTextFallback(items: seq<string>)
    ensures ListText(items) == if items == [] || items == [""] then Fallback else Join(items, ", ")
    ensures items != [] && items != [""] ==> ListText(items) != ""
  {
    JoinEmptyIff(items, ", ");
  }

  /** The lines of the description template literal. */
  function DescriptionLines(v: Vulnerability, severity: string, treeVersions: seq<string>,
                            dependents: seq<string>): (lines: seq<string>)
    ensures |lines| == 9
    ensures lines[0] == "**Issue ID**: " + v.id && lines[1] == "  **Issue**: " + v.issue
    ensures lines[2] == "  **Severity**: " + severity
    ensures lines[3] == "  **URL**: [" + v.url + "](" + v.url + ")"
    ensures lines[7] == "  " && lines[8] == "  Please address this issue as soon as possible."
  {
    [ "**Issue ID**: " + v.id,
      "  **Issue**: " + v.issue,
      "  **Severity**: " + severity,
      "  **URL**: [" + v.url + "](" + v.url + ")",
      "  **Vulnerable Versions**: " + OrFallback(v.vulnerableVersions),
      "  **Tree Versions**: " + ListText(treeVersions),
      "  **Dependents**: " + ListText(dependents),
      "  ",
      "  Please address this issue as soon as possible." ]
  }

  /** The three "N/A" fallbacks of the description. */
  lemma DescriptionFallbacks(v: Vulnerability, severity: string, treeVersions: seq<string>,
                             dependents: seq<string>)
    ensures var lines := DescriptionLines(v, severity, treeVersions, dependents);
      && lines[4] == "  **Vulnerable Versions**: " +
           (if v.vulnerableVersions == "" then Fallback else v.vulnerableVersions)
      && lines[5] == "  **Tree Versions**: " +
           (if treeVersions == [] || treeVersions == [""] then Fallback else Join(treeVersions, ", "))
      && lines[6] == "  **Dependents**: " +
           (if dependents == [] || dependents == [""] then Fallback else Join(dependents, ", "))
  {
    ListTextFallback(treeVersions);
    ListTextFallback(dependents);
  }

  /** The record has every field whose evaluation can throw. */
  predicate Composable(v: Vulnerability)
  {
    v.severity.Some? && v.treeVersions.Some? && v.dependents.Some?
  }

  /** The `issueData.fields` object literal of `createJiraTicket`, evaluated in order. */
  function ComposeIssue(v: Vulnerability, projectKey: string, epicKey: string): (r: Result<Issue, ComposeError>)
    ensures r.Ok? <==> Composable(v)
    ensures r.Err? ==> r.error == (if v.severity.None? then SeverityMissing
                                   else if v.treeVersions.None? then TreeVersionsMissing
                                   else DependentsMissing)
  {
    match v.severity
    case None => Err(SeverityMissing)
    case Some(severity) =>
      match v.treeVersions
      case None => Err(TreeVersionsMissing)
      case Some(treeVersions) =>
        match v.dependents
        case None => Err(DependentsMissing)
        case Some(dependents) =>
          Ok(Issue(projectKey, Summary(severity, v.moduleName),
                   Join(DescriptionLines(v, severity, treeVersions, dependents), "\n"),
                   IssueType, epicKey))
  }
}
