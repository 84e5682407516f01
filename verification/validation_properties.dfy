/** What the issue list of a cohort means: which rule accounts for each issue,
    in what order issues appear, how many there are, and when there are none. */
module ValidationProperties {
  import opened FileTree
  import opened PathNames
  import opened Flattening
  import opened Validation

  // ---------------------------------------------------------------------------
  // The rules, stated independently of how the checker walks the tree.

  /** The run companion called `json` in listing `func` has problem `p`: it is
      absent and `p` is Missing, or it is a JSON object without
      RepetitionTime and `p` is NoTR. */
  predicate CompanionFault(func: seq<Entry>, json: string, p: Problem)
  {
    match Lookup(func, json)
    case None => p == Missing
    case Some(c) => p == NoTR && c.File? && c.meta.JsonObject? && RepetitionTime !in c.meta.keys
  }

  /** Issue `x` is accounted for by one of the rules applied to session entry
      `sess` of subject `subject`. */
  predicate Explains(subject: string, sess: Entry, x: Issue)
  {
    && x.subject == subject
    && x.session == sess.name
    && match Lookup(Children(sess), FuncDir)
       case None => x.file == FuncDirLabel && x.problem == Missing
       case Some(f) =>
         var func := Children(f);
         || (x.file in RequiredFuncs && x.problem == Missing && !AnyContains(func, x.file))
         || exists nii | nii in func && Contains(nii.name, RunFragment) ::
              x.file == WithJsonSuffix(nii.name) && CompanionFault(func, x.file, x.problem)
  }

  /** A session that passes every rule: it has a `func` entry, each required
      fragment occurs in some name in it, and every run there has a companion
      that is a JSON object carrying RepetitionTime. */
  predicate SessionClean(sess: Entry)
  {
    match Lookup(Children(sess), FuncDir)
    case None => false
    case Some(f) =>
      var func := Children(f);
      && (forall req | req in RequiredFuncs :: AnyContains(func, req))
      && forall nii | nii in func && Contains(nii.name, RunFragment) ::
           match Lookup(func, WithJsonSuffix(nii.name))
           case None => false
           case Some(c) => c.File? && c.meta.JsonObject? && RepetitionTime in c.meta.keys
  }

  // ---------------------------------------------------------------------------
  // Required functional files.

  /** An issue comes from the required-file rule exactly when its file is one
      of the fragments and no entry of `func` has that fragment in its name;
      each fragment yields at most one issue. */
  lemma RequiredIssuesExplained(subject: string, session: string, func: seq<Entry>, reqs: seq<string>)
    ensures |RequiredIssues(subject, session, func, reqs)| <= |reqs|
    ensures forall x :: x in RequiredIssues(subject, session, func, reqs) <==>
      x.subject == subject && x.session == session && x.problem == Missing
      && x.file in reqs && !AnyContains(func, x.file)
  {
    var rule := RequiredRule(subject, session, func);
    FlattenMembers(rule, reqs);
    FlattenAtMostOne(rule, reqs);
    forall x
      ensures x in RequiredIssues(subject, session, func, reqs) <==>
        (x.subject == subject && x.session == session && x.problem == Missing
         && x.file in reqs && !AnyContains(func, x.file))
    {
      GlobContainsEmptyIff(func, x.file);
      if x in RequiredIssues(subject, session, func, reqs) {
        var req :| req in reqs && x in rule(req);
        assert x.file == req;
      }
      if x.subject == subject && x.session == session && x.problem == Missing
         && x.file in reqs && !AnyContains(func, x.file) {
        assert x in rule(x.file);
      }
    }
  }

  /** The two required fragments are checked independently, "bold.nii"
      first: a session gets none, one or both issues. */
  lemma RequiredFuncsIndependent(subject: string, session: string, func: seq<Entry>)
    ensures RequiredIssues(subject, session, func, RequiredFuncs)
         == (if AnyContains(func, "bold.nii") then [] else [Issue(subject, session, "bold.nii", Missing)])
            + (if AnyContains(func, "desc-confounds_regressors.tsv") then []
               else [Issue(subject, session, "desc-confounds_regressors.tsv", Missing)])
  {
    var rule := RequiredRule(subject, session, func);
    GlobContainsEmptyIff(func, RequiredFuncs[0]);
    GlobContainsEmptyIff(func, RequiredFuncs[1]);
    FlattenStep(rule, RequiredFuncs, 0);
    FlattenStep(rule, RequiredFuncs, 1);
    assert RequiredFuncs[..0] == [] && RequiredFuncs[..2] == RequiredFuncs;
  }

  // ---------------------------------------------------------------------------
  // Run metadata.

  /** Each run has exactly one of three outcomes, always about its companion:
      no issue when the companion carries RepetitionTime, one NoTR issue when
      it exists without it, one Missing issue when no entry has its name. */
  lemma RunOutcome(subject: string, session: string, func: seq<Entry>, nii: Entry)
    requires CompanionReadable(func, nii)
    ensures var json := WithJsonSuffix(nii.name);
      var r := RunIssue(subject, session, func, nii);
      && |r| <= 1
      && (r == [] <==> Lookup(func, json).Some? && RepetitionTime in Lookup(func, json).value.meta.keys)
      && (r == [Issue(subject, session, json, NoTR)] <==>
            Lookup(func, json).Some? && RepetitionTime !in Lookup(func, json).value.meta.keys)
      && (r == [Issue(subject, session, json, Missing)] <==> forall c | c in func :: c.name != json)
    ensures forall x :: x in RunIssue(subject, session, func, nii) <==>
      x.subject == subject && x.session == session && x.file == WithJsonSuffix(nii.name)
      && CompanionFault(func, x.file, x.problem)
  {
    LookupFinds(func, WithJsonSuffix(nii.name));
  }

  /** An issue comes from the metadata rule of a `func` listing exactly when
      some run in it has a faulty companion of that name. */
  lemma RunIssuesMatchRule(subject: string, session: string, func: seq<Entry>)
    requires RunsReadable(func)
    ensures forall x :: x in RunIssues(subject, session, func, GlobContains(func, RunFragment)) <==>
      x.subject == subject && x.session == session
      && exists nii | nii in func && Contains(nii.name, RunFragment) ::
           x.file == WithJsonSuffix(nii.name) && CompanionFault(func, x.file, x.problem)
  {
    var runs := GlobContains(func, RunFragment);
    var rule := RunRule(subject, session, func);
    FlattenMembers(rule, runs);
    GlobContainsComplete(func, RunFragment);
    forall x
      ensures x in RunIssues(subject, session, func, runs) <==>
        x.subject == subject && x.session == session
        && exists nii | nii in func && Contains(nii.name, RunFragment) ::
             x.file == WithJsonSuffix(nii.name) && CompanionFault(func, x.file, x.problem)
    {
      if x in RunIssues(subject, session, func, runs) {
        var nii :| nii in runs && x in rule(nii);
        assert CompanionReadable(func, nii);
        RunOutcome(subject, session, func, nii);
      }
      if x.subject == subject && x.session == session
        && exists nii | nii in func && Contains(nii.name, RunFragment) ::
             x.file == WithJsonSuffix(nii.name) && CompanionFault(func, x.file, x.problem) {
        var nii :| nii in func && Contains(nii.name, RunFragment)
          && x.file == WithJsonSuffix(nii.name) && CompanionFault(func, x.file, x.problem);
        assert nii in runs;
        assert CompanionReadable(func, nii);
        RunOutcome(subject, session, func, nii);
        assert x in rule(nii);
      }
    }
  }

  /** Each run yields at most one issue. */
  lemma RunIssuesAtMostOnePerRun(subject: string, session: string, func: seq<Entry>, runs: seq<Entry>)
    ensures |RunIssues(subject, session, func, runs)| <= |runs|
  {
    var rule := RunRule(subject, session, func);
    assert forall nii | nii in runs :: |rule(nii)| <= 1;
    FlattenAtMostOne(rule, runs);
  }

  /** The run issues follow the order in which `func` enumerates its
      `*bold.nii*` entries: the issue of the run at position `k` comes after
      those of every run listed before it and before those of every run
      listed after it. */
  lemma RunsInOrder(subject: string, session: string, func: seq<Entry>, k: nat)
    requires k < |func| && Contains(func[k].name, RunFragment)
    ensures RunIssues(subject, session, func, GlobContains(func, RunFragment))
         == RunIssues(subject, session, func, GlobContains(func[..k], RunFragment))
            + RunIssue(subject, session, func, func[k])
            + RunIssues(subject, session, func, GlobContains(func[k + 1..], RunFragment))
  {
    GlobContainsAt(func, RunFragment, k);
    FlattenAround(RunRule(subject, session, func), GlobContains(func[..k], RunFragment), func[k],
      GlobContains(func[k + 1..], RunFragment));
  }

  /** A run's issue names the run's companion. */
  lemma RunIssueNamesCompanion(subject: string, session: string, func: seq<Entry>, nii: Entry)
    ensures forall x | x in RunIssue(subject, session, func, nii) :: x.file == WithJsonSuffix(nii.name)
  {
  }

  /** Every companion issue names a "*.json" file. */
  lemma RunIssuesNameJson(subject: string, session: string, func: seq<Entry>, runs: seq<Entry>)
    ensures forall x | x in RunIssues(subject, session, func, runs) :: EndsWith(x.file, ".json")
  {
    var rule := RunRule(subject, session, func);
    FlattenMembers(rule, runs);
    forall x | x in RunIssues(subject, session, func, runs) ensures EndsWith(x.file, ".json") {
      var nii :| nii in runs && x in rule(nii);
      assert rule(nii) == RunIssue(subject, session, func, nii);
      RunIssueNamesCompanion(subject, session, func, nii);
    }
  }

  // ---------------------------------------------------------------------------
  // One session.

  /** Every issue of a session is accounted for by a rule, and every rule that
      fires yields its issue. */
  lemma SessionIssuesExplained(subject: string, sess: Entry)
    requires SessionReadable(sess)
    ensures forall x :: x in SessionIssues(subject, sess) <==> Explains(subject, sess, x)
  {
    match Lookup(Children(sess), FuncDir)
    case None =>
    case Some(f) =>
      var func := Children(f);
      RequiredIssuesExplained(subject, sess.name, func, RequiredFuncs);
      RunIssuesMatchRule(subject, sess.name, func);
  }

  /** No required fragment is a "*.json" name. */
  lemma RequiredFuncsNotJson()
    ensures forall req | req in RequiredFuncs :: !EndsWith(req, ".json")
  {
    assert !EndsWith(RequiredFuncs[0], ".json") && !EndsWith(RequiredFuncs[1], ".json");
  }

  /** Within a session that has a `func` entry, the required-file issues come
      first and name required fragments, and the companion issues follow and
      name "*.json" files. */
  lemma SessionIssueNames(subject: string, sess: Entry)
    ensures var r := SessionIssues(subject, sess);
      Lookup(Children(sess), FuncDir).Some? ==>
        forall k | 0 <= k < |r| :: (r[k].file in RequiredFuncs || EndsWith(r[k].file, ".json"))
    ensures var r := SessionIssues(subject, sess);
      Lookup(Children(sess), FuncDir).Some? ==>
        forall j, l | 0 <= j < l < |r| && r[l].file in RequiredFuncs :: r[j].file in RequiredFuncs
  {
    match Lookup(Children(sess), FuncDir)
    case None =>
    case Some(f) =>
      var func := Children(f);
      var required := RequiredIssues(subject, sess.name, func, RequiredFuncs);
      var metadata := RunIssues(subject, sess.name, func, GlobContains(func, RunFragment));
      RequiredIssuesExplained(subject, sess.name, func, RequiredFuncs);
      RunIssuesNameJson(subject, sess.name, func, GlobContains(func, RunFragment));
      RequiredFuncsNotJson();
      var r := required + metadata;
      forall k | 0 <= k < |r|
        ensures r[k].file in RequiredFuncs <==> k < |required|
        ensures r[k].file in RequiredFuncs || EndsWith(r[k].file, ".json")
      {
        if k < |required| {
          assert r[k] == required[k] && required[k] in required;
        } else {
          assert r[k] == metadata[k - |required|] && metadata[k - |required|] in metadata;
        }
      }
  }

  /** A session with an entry named `func` never yields the "func dir"
      issue: its issues name required fragments or "*.json" files. */
  lemma FuncDirFoundNoLabel(subject: string, sess: Entry)
    requires Lookup(Children(sess), FuncDir).Some?
    ensures forall x | x in SessionIssues(subject, sess) :: x.file != FuncDirLabel
  {
    var r := SessionIssues(subject, sess);
    SessionIssueNames(subject, sess);
    assert FuncDirLabel !in RequiredFuncs && !EndsWith(FuncDirLabel, ".json");
    forall x | x in r ensures x.file != FuncDirLabel {
      var k :| 0 <= k < |r| && r[k] == x;
    }
  }

  /** With no entry named `func` a session yields exactly the one "func dir"
      issue; with one, it never yields that issue. */
  lemma FuncDirShortCircuit(subject: string, sess: Entry)
    ensures (forall e | e in Children(sess) :: e.name != FuncDir) <==>
      SessionIssues(subject, sess) == [Issue(subject, sess.name, FuncDirLabel, Missing)]
    ensures (forall e | e in Children(sess) :: e.name != FuncDir) <==>
      Issue(subject, sess.name, FuncDirLabel, Missing) in SessionIssues(subject, sess)
  {
    LookupFinds(Children(sess), FuncDir);
    var r := SessionIssues(subject, sess);
    if Lookup(Children(sess), FuncDir).Some? {
      FuncDirFoundNoLabel(subject, sess);
      HeadIsMember(r);
    }
  }

  /** Solver hint: a non-empty list has a first element. */
  lemma HeadIsMember(r: seq<Issue>)
    ensures r == [] || r[0] in r
  {
  }

  /** A session that passes every rule yields no issue. */
  lemma CleanSessionNoIssues(subject: string, sess: Entry)
    requires SessionReadable(sess)
    requires SessionClean(sess)
    ensures SessionIssues(subject, sess) == []
  {
    SessionIssuesExplained(subject, sess);
    var r := SessionIssues(subject, sess);
    var f := Lookup(Children(sess), FuncDir).value;
    var func := Children(f);
    forall x ensures !Explains(subject, sess, x) {
      forall nii | nii in func && Contains(nii.name, RunFragment)
        ensures !CompanionFault(func, WithJsonSuffix(nii.name), x.problem)
      {
      }
    }
    HeadIsMember(r);
  }

  /** A session that yields no issue passes every rule. */
  lemma NoIssuesCleanSession(subject: string, sess: Entry)
    requires SessionReadable(sess)
    requires SessionIssues(subject, sess) == []
    ensures SessionClean(sess)
  {
    match Lookup(Children(sess), FuncDir)
    case None =>
    case Some(f) =>
      var func := Children(f);
      NoRequiredIssuesAllPresent(subject, sess.name, func);
      NoRunIssuesGoodCompanions(subject, sess.name, func);
  }

  /** Where the required-file rule yields no issue, every required fragment
      occurs in some name of the listing. */
  lemma NoRequiredIssuesAllPresent(subject: string, session: string, func: seq<Entry>)
    requires RequiredIssues(subject, session, func, RequiredFuncs) == []
    ensures forall req | req in RequiredFuncs :: AnyContains(func, req)
  {
    RequiredIssuesExplained(subject, session, func, RequiredFuncs);
    forall req | req in RequiredFuncs ensures AnyContains(func, req) {
      assert Issue(subject, session, req, Missing) !in RequiredIssues(subject, session, func, RequiredFuncs);
    }
  }

  /** Where the runs of a readable listing yield no issue, every run has a
      companion that is a JSON object carrying RepetitionTime. */
  lemma NoRunIssuesGoodCompanions(subject: string, session: string, func: seq<Entry>)
    requires RunsReadable(func)
    requires RunIssues(subject, session, func, GlobContains(func, RunFragment)) == []
    ensures forall nii | nii in func && Contains(nii.name, RunFragment) ::
      match Lookup(func, WithJsonSuffix(nii.name))
      case None => false
      case Some(c) => c.File? && c.meta.JsonObject? && RepetitionTime in c.meta.keys
  {
    var runs := GlobContains(func, RunFragment);
    var rule := RunRule(subject, session, func);
    FlattenEmpty(rule, runs);
    GlobContainsComplete(func, RunFragment);
    forall nii | nii in func && Contains(nii.name, RunFragment)
      ensures match Lookup(func, WithJsonSuffix(nii.name))
              case None => false
              case Some(c) => c.File? && c.meta.JsonObject? && RepetitionTime in c.meta.keys
    {
      assert nii in runs;
      assert CompanionReadable(func, nii);
      assert RunIssue(subject, session, func, nii) == [] by {
        assert rule(nii) == RunIssue(subject, session, func, nii);
      }
      RunOutcome(subject, session, func, nii);
    }
  }

  /** A session yields no issue exactly when it passes every rule. */
  lemma SessionCleanIff(subject: string, sess: Entry)
    requires SessionReadable(sess)
    ensures SessionIssues(subject, sess) == [] <==> SessionClean(sess)
  {
    if SessionClean(sess) {
      CleanSessionNoIssues(subject, sess);
    }
    if SessionIssues(subject, sess) == [] {
      NoIssuesCleanSession(subject, sess);
    }
  }
}
