/** What the cohort walk adds on top of the session rules: the report is the
    subjects' lists laid end to end, its length is the sum of theirs, each
    issue belongs to one `sub-*`/`ses-*` pair, and it is empty exactly when
    every session passes. */
module CohortProperties {
  import opened FileTree
  import opened Validation
  import opened ValidationProperties
  import opened Flattening

  // ---------------------------------------------------------------------------
  // Concatenation and counting.

  /** The report is the first subject's issues followed by the others', and
      its length is the sum of the subjects' issue counts. */
  lemma CohortIssueCount(root: Entry)
    ensures var subs := GlobPrefix(Children(root), SubjectPrefix);
      && |CohortIssues(root)| == TotalLength(SubjectIssues, subs)
      && (subs != [] ==> CohortIssues(root) == SubjectIssues(subs[0]) + SubjectsIssues(subs[1..]))
  {
    var subs := GlobPrefix(Children(root), SubjectPrefix);
    FlattenLength(SubjectIssues, subs);
    if subs != [] {
      FlattenHead(SubjectIssues, subs);
    }
  }

  /** A subject's issues follow the order in which its listing enumerates
      the `ses-*` entries: the issues of the `ses-*` entry at position `k`
      come after those of every `ses-*` entry listed before it and before
      those of every one listed after it. */
  lemma SessionsInOrder(sub: Entry, k: nat)
    requires k < |Children(sub)| && StartsWith(Children(sub)[k].name, SessionPrefix)
    ensures var es := Children(sub);
      SubjectIssues(sub)
        == SessionsIssues(sub.name, GlobPrefix(es[..k], SessionPrefix))
           + SessionIssues(sub.name, es[k])
           + SessionsIssues(sub.name, GlobPrefix(es[k + 1..], SessionPrefix))
  {
    var es := Children(sub);
    GlobPrefixAt(es, SessionPrefix, k);
    FlattenAround(SessionRule(sub.name), GlobPrefix(es[..k], SessionPrefix), es[k], GlobPrefix(es[k + 1..], SessionPrefix));
  }

  /** The report follows the order in which the root's listing enumerates
      the `sub-*` entries: the issues of the `sub-*` entry at position `k`
      come after those of every `sub-*` entry listed before it and before
      those of every one listed after it. */
  lemma SubjectsInOrder(root: Entry, k: nat)
    requires k < |Children(root)| && StartsWith(Children(root)[k].name, SubjectPrefix)
    ensures var es := Children(root);
      CohortIssues(root)
        == SubjectsIssues(GlobPrefix(es[..k], SubjectPrefix))
           + SubjectIssues(es[k])
           + SubjectsIssues(GlobPrefix(es[k + 1..], SubjectPrefix))
  {
    var es := Children(root);
    GlobPrefixAt(es, SubjectPrefix, k);
    FlattenAround(SubjectIssues, GlobPrefix(es[..k], SubjectPrefix), es[k], GlobPrefix(es[k + 1..], SubjectPrefix));
  }

  /** A cohort root with no `sub-*` entry, a plain file among them, yields an
      empty report, and the checker reads it to the end. */
  lemma NoSubjectsNoIssues(root: Entry)
    requires forall e | e in Children(root) :: !StartsWith(e.name, SubjectPrefix)
    ensures CohortReadable(root)
    ensures CohortIssues(root) == []
  {
    GlobPrefixEmptyIff(Children(root), SubjectPrefix);
  }

  // ---------------------------------------------------------------------------
  // Membership.

  /** An issue is reported for a subject exactly when a rule accounts for it
      in one of the subject's `ses-*` entries. */
  lemma SubjectIssuesExplained(sub: Entry)
    requires SubjectReadable(sub)
    ensures forall x :: x in SubjectIssues(sub) <==>
      exists sess | sess in Children(sub) && StartsWith(sess.name, SessionPrefix) :: Explains(sub.name, sess, x)
  {
    var sessions := GlobPrefix(Children(sub), SessionPrefix);
    GlobPrefixComplete(Children(sub), SessionPrefix);
    FlattenMembers(SessionRule(sub.name), sessions);
    forall x
      ensures x in SubjectIssues(sub) <==>
        exists sess | sess in Children(sub) && StartsWith(sess.name, SessionPrefix) :: Explains(sub.name, sess, x)
    {
      if x in SubjectIssues(sub) {
        var sess :| sess in sessions && x in SessionIssues(sub.name, sess);
        SessionIssuesExplained(sub.name, sess);
      }
      if exists sess | sess in Children(sub) && StartsWith(sess.name, SessionPrefix) :: Explains(sub.name, sess, x) {
        var sess :| sess in Children(sub) && StartsWith(sess.name, SessionPrefix) && Explains(sub.name, sess, x);
        assert sess in sessions;
        assert SessionReadable(sess);
        SessionIssuesExplained(sub.name, sess);
      }
    }
  }

  /** Each issue of a session of the cohort is in the report. */
  lemma SessionIssuesInCohort(root: Entry, sub: Entry, sess: Entry)
    requires CohortReadable(root)
    requires sub in Children(root) && StartsWith(sub.name, SubjectPrefix)
    requires sess in Children(sub) && StartsWith(sess.name, SessionPrefix)
    ensures SubjectReadable(sub) && SessionReadable(sess)
    ensures forall x | x in SessionIssues(sub.name, sess) :: x in CohortIssues(root)
  {
    var subs := GlobPrefix(Children(root), SubjectPrefix);
    GlobPrefixComplete(Children(root), SubjectPrefix);
    assert sub in subs;
    assert SubjectReadable(sub);
    assert SessionReadable(sess);
    FlattenMembers(SubjectIssues, subs);
    SubjectIssuesExplained(sub);
    SessionIssuesExplained(sub.name, sess);
    forall x | x in SessionIssues(sub.name, sess) ensures x in CohortIssues(root) {
      assert Explains(sub.name, sess, x);
      assert x in SubjectIssues(sub);
    }
  }

  /** Each issue in the report comes from some `ses-*` entry of some `sub-*`
      entry of the root. */
  lemma CohortIssueSource(root: Entry, x: Issue)
    requires CohortReadable(root)
    requires x in CohortIssues(root)
    ensures exists sub, sess | sub in Children(root) && StartsWith(sub.name, SubjectPrefix)
      && sess in Children(sub) && StartsWith(sess.name, SessionPrefix) :: Explains(sub.name, sess, x)
  {
    var subs := GlobPrefix(Children(root), SubjectPrefix);
    FlattenMembers(SubjectIssues, subs);
    var sub :| sub in subs && x in SubjectIssues(sub);
    assert SubjectReadable(sub);
    SubjectIssuesExplained(sub);
  }

  /** An issue is in the report exactly when a rule accounts for it in some
      `ses-*` entry of some `sub-*` entry of the root: the subject and
      session fields name that pair. */
  lemma CohortIssuesExplained(root: Entry)
    requires CohortReadable(root)
    ensures forall x :: x in CohortIssues(root) <==>
      exists sub, sess | sub in Children(root) && StartsWith(sub.name, SubjectPrefix)
        && sess in Children(sub) && StartsWith(sess.name, SessionPrefix) :: Explains(sub.name, sess, x)
  {
    forall x
      ensures x in CohortIssues(root) <==>
        exists sub, sess | sub in Children(root) && StartsWith(sub.name, SubjectPrefix)
          && sess in Children(sub) && StartsWith(sess.name, SessionPrefix) :: Explains(sub.name, sess, x)
    {
      if x in CohortIssues(root) {
        CohortIssueSource(root, x);
      }
      if exists sub, sess | sub in Children(root) && StartsWith(sub.name, SubjectPrefix)
          && sess in Children(sub) && StartsWith(sess.name, SessionPrefix) :: Explains(sub.name, sess, x) {
        var sub, sess :| sub in Children(root) && StartsWith(sub.name, SubjectPrefix)
          && sess in Children(sub) && StartsWith(sess.name, SessionPrefix) && Explains(sub.name, sess, x);
        SessionIssuesInCohort(root, sub, sess);
        SessionIssuesExplained(sub.name, sess);
      }
    }
  }

  // ---------------------------------------------------------------------------
  // An empty report.

  /** Every `ses-*` entry of every `sub-*` entry passes every rule. */
  predicate CohortClean(root: Entry)
  {
    forall sub, sess | sub in Children(root) && StartsWith(sub.name, SubjectPrefix)
      && sess in Children(sub) && StartsWith(sess.name, SessionPrefix) :: SessionClean(sess)
  }

  lemma NoIssuesCleanCohort(root: Entry)
    requires CohortReadable(root)
    requires CohortIssues(root) == []
    ensures CohortClean(root)
  {
    forall sub, sess | sub in Children(root) && StartsWith(sub.name, SubjectPrefix)
      && sess in Children(sub) && StartsWith(sess.name, SessionPrefix)
      ensures SessionClean(sess)
    {
      SessionIssuesInCohort(root, sub, sess);
      HeadIsMember(SessionIssues(sub.name, sess));
      SessionCleanIff(sub.name, sess);
    }
  }

  lemma CleanCohortNoIssues(root: Entry)
    requires CohortReadable(root)
    requires CohortClean(root)
    ensures CohortIssues(root) == []
  {
    CohortIssuesExplained(root);
    forall x | x in CohortIssues(root) ensures false {
      var sub, sess :| sub in Children(root) && StartsWith(sub.name, SubjectPrefix)
        && sess in Children(sub) && StartsWith(sess.name, SessionPrefix) && Explains(sub.name, sess, x);
      assert SubjectReadable(sub);
      assert SessionReadable(sess);
      SessionCleanIff(sub.name, sess);
      SessionIssuesExplained(sub.name, sess);
    }
    HeadIsMember(CohortIssues(root));
  }

  /** The report is empty exactly when every session of every subject passes
      every rule. */
  lemma CohortCleanIff(root: Entry)
    requires CohortReadable(root)
    ensures CohortIssues(root) == [] <==> CohortClean(root)
  {
    if CohortIssues(root) == [] {
      NoIssuesCleanCohort(root);
    }
    if CohortClean(root) {
      CleanCohortNoIssues(root);
    }
  }
}
