/**
 * The enumerations the client checks caller input against before any
 * request, and the check itself: the list of offending entries, in input
 * order, joined with ',' into the `FossologyInvalidParameter` message.
 */
module Validation {
  import Strings

  const LicenseAgents: set<string> := {"nomos", "monk", "ninka", "ojo", "reportImport", "reso"}

  const JobAnalyses: set<string> :=
    {"bucket", "copyright_email_author", "ecc", "keyword", "mime", "monk", "nomos", "ojo", "package", "reso"}

  const JobDeciders: set<string> := {"nomos_monk", "bulk_reused", "new_scanner", "ojo_decider"}

  const ReportFormats: set<string> := {"dep5", "spdx2", "spdx2tv", "readmeoss", "unifiedreport"}

  const AgentsRejected := "Invalid agents for license findings: "
  const AnalysisRejected := "Invalid analysis for job: "
  const DeciderRejected := "Invalid decider for job: "
  const FormatRejected := "Invalid report format: "

  /** `[x for x in xs if x not in allowed]`: the entries outside the enumeration. */
  function Invalid(xs: seq<string>, allowed: set<string>): (bad: seq<string>)
    ensures forall x :: x in bad <==> x in xs && x !in allowed
    ensures |bad| <= |xs|
    ensures bad == [] <==> forall i :: 0 <= i < |xs| ==> xs[i] in allowed
  {
    if |xs| == 0 then []
    else (if xs[0] in allowed then [] else [xs[0]]) + Invalid(xs[1..], allowed)
  }

  /** The filter keeps input order: it works piecewise over a concatenation. */
  lemma {:induction false} InvalidOfConcat(a: seq<string>, b: seq<string>, allowed: set<string>)
    ensures Invalid(a + b, allowed) == Invalid(a, allowed) + Invalid(b, allowed)
  {
    if |a| == 0 {
      assert a + b == b;
    } else {
      assert (a + b)[0] == a[0] && (a + b)[1..] == a[1..] + b;
      InvalidOfConcat(a[1..], b, allowed);
    }
  }

  /** The message naming the rejected entries. */
  function Rejection(prefix: string, bad: seq<string>): string
  {
    prefix + Strings.Join(bad, ',')
  }

  /**
   * The rejection message names exactly the invalid entries in input order:
   * splitting what follows the prefix on ',' gives back the invalid list,
   * when no entry holds a ',' itself.
   */
  lemma RejectionNamesInvalid(prefix: string, xs: seq<string>, allowed: set<string>)
    requires Invalid(xs, allowed) != []
    requires forall i :: 0 <= i < |xs| ==> ',' !in xs[i]
    ensures Strings.Split(Rejection(prefix, Invalid(xs, allowed))[|prefix|..], ',') == Invalid(xs, allowed)
  {
    var bad := Invalid(xs, allowed);
    assert Rejection(prefix, bad)[|prefix|..] == Strings.Join(bad, ',');
    forall i | 0 <= i < |bad| ensures ',' !in bad[i] {
      assert bad[i] in bad;
    }
    Strings.JoinThenSplit(bad, ',');
  }
}
