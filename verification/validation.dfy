/** The session rule checker and cohort walker of fmri-check. A cohort is a
    read-only directory tree; validating it walks `sub-*` then `ses-*` and
    lists, in discovery order, every missing functional directory, missing
    required functional file, and missing or incomplete run metadata file. */
module Validation {
  import opened FileTree
  import opened PathNames
  import opened Flattening

  /** Name fragments of which every `func` folder must hold at least one. */
  const RequiredFuncs: seq<string> := ["bold.nii", "desc-confounds_regressors.tsv"]
  /** A run's primary image is any `func` entry whose name contains this. */
  const RunFragment: string := "bold.nii"
  /** The metadata key every run companion must carry. */
  const RepetitionTime: string := "RepetitionTime"
  const FuncDir: string := "func"
  /** What an issue about an absent `func` folder names as its file. */
  const FuncDirLabel: string := "func dir"
  const SubjectPrefix: string := "sub-"
  const SessionPrefix: string := "ses-"

  datatype Problem = Missing | NoTR

  /** The text of the report's `problem` column. */
  function Label(p: Problem): string
  {
    match p
    case Missing => "missing"
    case NoTR => "no TR"
  }

  /** One row of the report. */
  datatype Issue = Issue(subject: string, session: string, file: string, problem: Problem)

  // ---------------------------------------------------------------------------
  // Which trees the checker can read to the end: it opens and parses every
  // run's companion that exists; a directory or a non-JSON file there aborts
  // the whole run.

  predicate CompanionReadable(func: seq<Entry>, nii: Entry)
  {
    match Lookup(func, WithJsonSuffix(nii.name))
    case None => true
    case Some(c) => c.File? && c.meta.JsonObject?
  }

  predicate RunsReadable(func: seq<Entry>)
  {
    forall nii {:trigger CompanionReadable(func, nii)} | nii in func && Contains(nii.name, RunFragment) ::
      CompanionReadable(func, nii)
  }

  predicate SessionReadable(sess: Entry)
  {
    match Lookup(Children(sess), FuncDir)
    case None => true
    case Some(f) => RunsReadable(Children(f))
  }

  predicate SubjectReadable(sub: Entry)
  {
    forall sess {:trigger SessionReadable(sess)} | sess in Children(sub) && StartsWith(sess.name, SessionPrefix) ::
      SessionReadable(sess)
  }

  predicate CohortReadable(root: Entry)
  {
    forall sub {:trigger SubjectReadable(sub)} | sub in Children(root) && StartsWith(sub.name, SubjectPrefix) ::
      SubjectReadable(sub)
  }

  // ---------------------------------------------------------------------------
  // Specification: the issues as values. Each list is a rule flattened over
  // a listing, in listing order.

  /** The required-file rule for one fragment `req` of listing `func`. */
  function RequiredRule(subject: string, session: string, func: seq<Entry>): string -> seq<Issue>
  {
    req => if GlobContains(func, req) == [] then [Issue(subject, session, req, Missing)] else []
  }

  /** The required-file rule for the fragments `reqs`, in their order. */
  function RequiredIssues(subject: string, session: string, func: seq<Entry>, reqs: seq<string>): seq<Issue>
  {
    Flatten(RequiredRule(subject, session, func), reqs)
  }

  /** The metadata rule for one run `nii` of listing `func`. The checker
      aborts on a companion it cannot parse, so it is only ever run where
      `CompanionReadable` holds: there, a companion that exists is a JSON
      object, and the rule asks whether it has the RepetitionTime key. */
  function RunIssue(subject: string, session: string, func: seq<Entry>, nii: Entry): seq<Issue>
  {
    var json := WithJsonSuffix(nii.name);
    match Lookup(func, json)
    case None => [Issue(subject, session, json, Missing)]
    case Some(c) =>
      if c.File? && c.meta.JsonObject? && RepetitionTime in c.meta.keys then []
      else [Issue(subject, session, json, NoTR)]
  }

  function RunRule(subject: string, session: string, func: seq<Entry>): Entry -> seq<Issue>
  {
    nii => RunIssue(subject, session, func, nii)
  }

  /** The metadata rule for the runs `runs`, in their order. */
  function RunIssues(subject: string, session: string, func: seq<Entry>, runs: seq<Entry>): seq<Issue>
  {
    Flatten(RunRule(subject, session, func), runs)
  }

  /** All rules for one session of subject `subject`. */
  function SessionIssues(subject: string, sess: Entry): seq<Issue>
  {
    match Lookup(Children(sess), FuncDir)
    case None => [Issue(subject, sess.name, FuncDirLabel, Missing)]
    case Some(f) =>
      var func := Children(f);
      RequiredIssues(subject, sess.name, func, RequiredFuncs)
        + RunIssues(subject, sess.name, func, GlobContains(func, RunFragment))
  }

  function SessionRule(subject: string): Entry -> seq<Issue>
  {
    sess => SessionIssues(subject, sess)
  }

  function SessionsIssues(subject: string, sessions: seq<Entry>): seq<Issue>
  {
    Flatten(SessionRule(subject), sessions)
  }

  function SubjectIssues(sub: Entry): seq<Issue>
  {
    SessionsIssues(sub.name, GlobPrefix(Children(sub), SessionPrefix))
  }

  function SubjectsIssues(subs: seq<Entry>): seq<Issue>
  {
    Flatten(SubjectIssues, subs)
  }

  function CohortIssues(root: Entry): seq<Issue>
  {
    SubjectsIssues(GlobPrefix(Children(root), SubjectPrefix))
  }

  // ---------------------------------------------------------------------------
  // The checker.

  /** Checks every `ses-*` entry of subject entry `sub`. */
  method CheckSubject(sub: Entry) returns (issues: seq<Issue>)
    requires SubjectReadable(sub)
    ensures issues == SubjectIssues(sub)
  {
    issues := [];
    var sessions := GlobPrefix(Children(sub), SessionPrefix);
    assert forall sess | sess in sessions :: SessionReadable(sess);
    for i := 0 to |sessions|
      invariant issues == SessionsIssues(sub.name, sessions[..i])
    {
      var sess := sessions[i];
      assert SessionReadable(sess);
      FlattenStep(SessionRule(sub.name), sessions, i);
      var sessionIssues := CheckSession(sub.name, sess);
      issues := issues + sessionIssues;
    }
    assert sessions[..|sessions|] == sessions;
  }

  /** The body of the session loop: the `func` short-circuit (its `continue`
      is the early return), then the required-file rule, then the runs. */
  method CheckSession(subject: string, sess: Entry) returns (issues: seq<Issue>)
    requires SessionReadable(sess)
    ensures issues == SessionIssues(subject, sess)
  {
    issues := [];
    var funcDir := Lookup(Children(sess), FuncDir);
    if funcDir.None? {
      issues := issues + [Issue(subject, sess.name, FuncDirLabel, Missing)];
      return;
    }
    var func := Children(funcDir.value);

    for j := 0 to |RequiredFuncs|
      invariant issues == RequiredIssues(subject, sess.name, func, RequiredFuncs[..j])
    {
      var req := RequiredFuncs[j];
      FlattenStep(RequiredRule(subject, sess.name, func), RequiredFuncs, j);
      if GlobContains(func, req) == [] {
        issues := issues + [Issue(subject, sess.name, req, Missing)];
      }
    }
    assert RequiredFuncs[..|RequiredFuncs|] == RequiredFuncs;

    var runIssues := CheckRuns(subject, sess.name, func);
    issues := issues + runIssues;
  }

  /** The loop over the `*bold.nii*` entries of a `func` listing: each run's
      companion must exist and carry RepetitionTime. */
  method CheckRuns(subject: string, session: string, func: seq<Entry>) returns (issues: seq<Issue>)
    requires RunsReadable(func)
    ensures issues == RunIssues(subject, session, func, GlobContains(func, RunFragment))
  {
    issues := [];
    var runs := GlobContains(func, RunFragment);
    for k := 0 to |runs|
      invariant issues == RunIssues(subject, session, func, runs[..k])
    {
      var nii := runs[k];
      assert CompanionReadable(func, nii);
      var json := WithJsonSuffix(nii.name);
      var companion := Lookup(func, json);
      FlattenStep(RunRule(subject, session, func), runs, k);
      if companion.Some? {
        if RepetitionTime !in companion.value.meta.keys {
          issues := issues + [Issue(subject, session, json, NoTR)];
        }
      } else {
        issues := issues + [Issue(subject, session, json, Missing)];
      }
    }
    assert runs[..|runs|] == runs;
  }

  /** Checks every `sub-*` entry of the cohort root `root`. */
  method ValidateCohort(root: Entry) returns (allIssues: seq<Issue>)
    requires CohortReadable(root)
    ensures allIssues == CohortIssues(root)
  {
    allIssues := [];
    var subs := GlobPrefix(Children(root), SubjectPrefix);
    assert forall sub | sub in subs :: SubjectReadable(sub);
    for i := 0 to |subs|
      invariant allIssues == SubjectsIssues(subs[..i])
    {
      var sub := subs[i];
      assert SubjectReadable(sub);
      FlattenStep(SubjectIssues, subs, i);
      var subIssues := CheckSubject(sub);
      allIssues := allIssues + subIssues;
    }
    assert subs[..|subs|] == subs;
  }
}
