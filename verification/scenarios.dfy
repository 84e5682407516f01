/** Three small cohorts, each with one subject `sub-01` and one session
    `ses-01`, and the report each one yields. */
module Scenarios {
  import opened FileTree
  import opened PathNames
  import opened Validation
  import opened ValidationProperties
  import opened Flattening

  /** The BIDS entity prefix of the scenario's file names. */
  const Entities: string := "sub-01_ses-01_"
  const Image: string := Entities + "bold.nii"
  const Companion: string := Entities + "bold.json"
  const Confounds: string := Entities + "desc-confounds_regressors.tsv"

  /** A cohort whose only session is `session`. */
  function OneSession(session: Entry): Entry
  {
    Dir("demo", [Dir("sub-01", [session])])
  }

  /** A `func` listing: the image, a companion with the top-level keys
      `keys`, and the confounds table. */
  function Listing(keys: set<string>): seq<Entry>
  {
    [File(Image, NotJson), File(Companion, JsonObject(keys)), File(Confounds, NotJson)]
  }

  function FuncSession(keys: set<string>): Entry
  {
    Dir("ses-01", [Dir("func", Listing(keys))])
  }

  /** A one-session cohort reports exactly that session's issues. */
  lemma OneSessionIssues(session: Entry)
    requires StartsWith(session.name, SessionPrefix) && SessionReadable(session)
    ensures CohortReadable(OneSession(session))
    ensures CohortIssues(OneSession(session)) == SessionIssues("sub-01", session)
  {
    var sub := Dir("sub-01", [session]);
    assert GlobPrefix(Children(sub), SessionPrefix) == [session];
    FlattenSingle(SessionRule("sub-01"), session);
    assert GlobPrefix(Children(OneSession(session)), SubjectPrefix) == [sub];
    FlattenSingle(SubjectIssues, sub);
  }

  /** A session with no `func` folder yields the single "func dir" row. */
  lemma NoFuncDirScenario()
    ensures CohortReadable(OneSession(Dir("ses-01", [])))
    ensures CohortIssues(OneSession(Dir("ses-01", []))) == [Issue("sub-01", "ses-01", "func dir", Missing)]
  {
    OneSessionIssues(Dir("ses-01", []));
  }

  lemma ImageIsRun()
    ensures Contains(Image, RunFragment)
  {
    ContainsAt(Image, RunFragment, |Entities|);
  }

  lemma CompanionIsNotRun()
    ensures !Contains(Companion, RunFragment)
  {
    assert 'i' in RunFragment && 'i' !in Companion;
    MissingCharNotContained(Companion, RunFragment, 'i');
  }

  lemma ConfoundsIsNotRun()
    ensures !Contains(Confounds, RunFragment)
  {
    assert 'i' in RunFragment && 'i' !in Confounds;
    MissingCharNotContained(Confounds, RunFragment, 'i');
  }

  /** The image is the listing's only run. */
  lemma ImageIsOnlyRun(keys: set<string>)
    ensures GlobContains(Listing(keys), RunFragment) == [File(Image, NotJson)]
  {
    var func := Listing(keys);
    ImageIsRun();
    CompanionIsNotRun();
    ConfoundsIsNotRun();
    assert GlobContains(func[2..], RunFragment) == [];
    assert GlobContains(func[1..], RunFragment) == [];
  }

  /** Both required fragments occur in the listing. */
  lemma RequiredPresent(keys: set<string>)
    ensures AnyContains(Listing(keys), "bold.nii") && AnyContains(Listing(keys), "desc-confounds_regressors.tsv")
  {
    var func := Listing(keys);
    ContainsAt(Image, "bold.nii", 14);
    ContainsAt(Confounds, "desc-confounds_regressors.tsv", 14);
    assert func[0] in func && func[2] in func;
  }

  /** The image's companion is the listing's second entry. */
  lemma CompanionName()
    ensures WithJsonSuffix(Image) == Companion
  {
    SuffixIsFinalExtension(Image, |Entities| + 4);
    assert Image[..|Entities| + 4] == Entities + "bold";
  }

  lemma CompanionFound(keys: set<string>)
    ensures Lookup(Listing(keys), Companion) == Some(File(Companion, JsonObject(keys)))
  {
    var func := Listing(keys);
    assert |func[0].name| != |Companion|;
    assert func[1..][0].name == Companion;
  }

  /** The scenario session's report: none, or one "no TR" row. */
  lemma FuncSessionIssues(keys: set<string>)
    ensures SessionReadable(FuncSession(keys))
    ensures SessionIssues("sub-01", FuncSession(keys))
         == if RepetitionTime in keys then [] else [Issue("sub-01", "ses-01", Companion, NoTR)]
  {
    var func := Listing(keys);
    ImageIsOnlyRun(keys);
    RequiredPresent(keys);
    CompanionName();
    CompanionFound(keys);
    assert CompanionReadable(func, File(Image, NotJson));
    GlobContainsComplete(func, RunFragment);
    assert RunsReadable(func);
    RequiredFuncsIndependent("sub-01", "ses-01", func);
    FlattenSingle(RunRule("sub-01", "ses-01", func), File(Image, NotJson));
  }

  /** A session with a run, its companion carrying RepetitionTime and the
      confounds table yields no row. */
  lemma CleanScenario()
    ensures CohortReadable(OneSession(FuncSession({"RepetitionTime"})))
    ensures CohortIssues(OneSession(FuncSession({"RepetitionTime"}))) == []
  {
    FuncSessionIssues({"RepetitionTime"});
    OneSessionIssues(FuncSession({"RepetitionTime"}));
  }

  /** The same session with an empty JSON object as companion yields one
      "no TR" row naming the companion. */
  lemma EmptyJsonScenario()
    ensures CohortReadable(OneSession(FuncSession({})))
    ensures CohortIssues(OneSession(FuncSession({}))) == [Issue("sub-01", "ses-01", Companion, NoTR)]
  {
    FuncSessionIssues({});
    OneSessionIssues(FuncSession({}));
  }
}
