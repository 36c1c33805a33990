/**
 * The two pieces of pure logic in utils/jira.js: the severity-to-priority mapper
 * `jiraFriendlyCaseSeverity` and the projection of a search response onto child issues
 * in `fetchChildIssues`. The HTTP calls around them are not modelled.
 */
module Jira {
  import opened Text

  /**
   * `jiraFriendlyCaseSeverity`: exactly "info" and "moderate" are renamed; any other
   * label gets its first character upper-cased. The comparison is case-sensitive; the
   * lower-cased copy the source computes first is overwritten on every branch.
   */
  function FriendlySeverity(severity: string): (priority: string)
    ensures severity == "info" ==> priority == "Minor"
    ensures severity == "moderate" ==> priority == "Medium"
    ensures severity != "info" && severity != "moderate" ==>
      |priority| == |severity| &&
      (severity != [] ==> priority[0] == UpperChar(severity[0]) && priority[1..] == severity[1..])
  {
    if severity == "info" then "Minor"
    else if severity == "moderate" then "Medium"
    else if severity == [] then []
    else [UpperChar(severity[0])] + severity[1..]
  }

  /** A priority label never starts with a lower-case letter, and only the empty label
      maps to the empty label. */
  lemma FriendlySeverityShape(severity: string)
    ensures FriendlySeverity(severity) == [] <==> severity == []
    ensures FriendlySeverity(severity) != [] ==> !IsLower(FriendlySeverity(severity)[0])
  {
    if severity != "info" && severity != "moderate" && severity != [] {
      assert FriendlySeverity(severity)[0] == UpperChar(severity[0]);
    }
  }

  /** Mapping a priority label again changes nothing. */
  lemma FriendlySeverityIdempotent(severity: string)
    ensures FriendlySeverity(FriendlySeverity(severity)) == FriendlySeverity(severity)
  {
    var p := FriendlySeverity(severity);
    FriendlySeverityShape(severity);
    assert p != "info" && p != "moderate" by {
      if p != [] { assert p[0] != 'i' && p[0] != 'm'; }
    }
    if p != [] {
      assert UpperChar(p[0]) == p[0];
      assert [p[0]] + p[1..] == p;
    }
  }

  /** The mapping table: the renamed labels, title-casing of the rest, and case-sensitive
      matching of the two renamed ones. */
  lemma FriendlySeverityTable()
    ensures FriendlySeverity("info") == "Minor" && FriendlySeverity("moderate") == "Medium"
    ensures FriendlySeverity("low") == "Low" && FriendlySeverity("high") == "High"
    ensures FriendlySeverity("critical") == "Critical" && FriendlySeverity("hIGH") == "HIGH"
    ensures FriendlySeverity("Info") == "Info" && FriendlySeverity("MODERATE") == "MODERATE"
    ensures FriendlySeverity("") == ""
  {
    assert FriendlySeverity("low") == [UpperChar('l')] + "ow";
    assert FriendlySeverity("high") == [UpperChar('h')] + "igh";
    assert FriendlySeverity("critical") == [UpperChar('c')] + "ritical";
    assert FriendlySeverity("hIGH") == [UpperChar('h')] + "IGH";
  }

  /** One issue of the search response, with the fields the query asks for. */
  datatype StatusField = StatusField(name: string)
  datatype IssueFields = IssueFields(summary: string, status: StatusField)
  datatype SearchIssue = SearchIssue(key: string, fields: IssueFields)

  /** A child issue of the epic as `fetchChildIssues` returns it. */
  datatype ChildIssue = ChildIssue(key: string, summary: string, status: string)

  function ToChildIssue(issue: SearchIssue): ChildIssue
  {
    ChildIssue(issue.key, issue.fields.summary, issue.fields.status.name)
  }

  /** The projection `fetchChildIssues` applies to the issues of the search response. */
  function ChildIssues(issues: seq<SearchIssue>): (r: seq<ChildIssue>)
    ensures |r| == |issues|
  {
    if issues == [] then [] else [ToChildIssue(issues[0])] + ChildIssues(issues[1..])
  }

  /** The projection keeps length and order and projects each issue on its own. */
  lemma {:induction false} ChildIssuesPointwise(issues: seq<SearchIssue>)
    ensures |ChildIssues(issues)| == |issues|
    ensures forall i :: 0 <= i < |issues| ==>
      ChildIssues(issues)[i] == ChildIssue(issues[i].key, issues[i].fields.summary, issues[i].fields.status.name)
  {
    if issues != [] {
      ChildIssuesPointwise(issues[1..]);
      var r := ChildIssues(issues);
      forall i | 0 <= i < |issues|
        ensures r[i] == ChildIssue(issues[i].key, issues[i].fields.summary, issues[i].fields.status.name)
      {
        if i > 0 { assert r[i] == ChildIssues(issues[1..])[i - 1]; }
      }
    }
  }

  /** Projecting a concatenation is concatenating the projections. */
  lemma {:induction false} ChildIssuesAppend(a: seq<SearchIssue>, b: seq<SearchIssue>)
    ensures ChildIssues(a + b) == ChildIssues(a) + ChildIssues(b)
  {
    if a != [] {
      assert (a + b)[1..] == a[1..] + b;
      ChildIssuesAppend(a[1..], b);
    } else {
      assert a + b == b;
    }
  }
}
