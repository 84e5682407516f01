# fmri-check validation core in Dafny

fmri-check scans a cohort directory produced by a neuroimaging preprocessing
pipeline and reports completeness issues. `validate_cohort` walks the `sub-*`
entries of the cohort root, and `_check_subject` walks each subject's `ses-*`
entries. For every session it reports, in this order:

- a missing `func` entry. This short-circuits the session;
- each fragment of `REQUIRED_FUNCS` that no `func` entry has in its name;
- for every `func` entry whose name contains `bold.nii`:
  - a missing companion (the name with its final suffix replaced by `.json`); or
  - a companion without the `RepetitionTime` key.

Each issue is a record `(subject, session, file, problem)`, and `problem` is
either "missing" or "no TR".

The model takes the filesystem as an input value:

- An `Entry` is a directory with its listing, in enumeration order, or a file.
- A file carries what it parses to as JSON: the set of top-level keys of a JSON object, or nothing.
- Globs and `exists()` are functions on listings (`file_tree.dfy`).
- `with_suffix(".json")` is a string function on the last dot of a name (`path_names.dfy`).

The checker itself is imperative, as in the source (`validation.dfy`):

- `CheckSubject` has the `ses-*` loop.
- `CheckSession` is the loop body. Its `continue` is an early return.
- The required-file loop is inside `CheckSession`.
- `CheckRuns` has the run loop.
- `ValidateCohort` has the `sub-*` loop.

Each method is proved equal to a specification function. Each specification
function is a per-item rule flattened over a listing (`flatten.dfy`). The
properties of those functions are proved as lemmas:

- `validation_properties.dfy`: the rules one session obeys.
- `cohort_properties.dfy`: the cohort walk.
- `scenarios.dfy`: small concrete cohorts.

Some consequences of the code that the lemmas make explicit:

- Any entry named `func` satisfies the existence test, a plain file too. A plain file has no children, so every required fragment is then reported missing.
- Substring globs also match directories.
- A compressed image `x_bold.nii.gz` is paired with `x_bold.nii.json`.
- A name such as `x_bold.nii.json` contains `bold.nii`, so it is a run in its own right, and it is its own companion.

## Model

| member | source | states |
|---|---|---|
| FileTree.GlobPrefix | validation.py:20 | `glob("<prefix>*")` yields only entries of the listing whose names start with the prefix, and no more entries than the listing has; `GlobPrefixAt` adds that they come in listing order |
| FileTree.GlobPrefixAppend | validation.py:20 | a prefix glob over two listings laid end to end is the glob over the first followed by the glob over the second |
| FileTree.GlobPrefixAt | validation.py:71 | a matching entry at position `k` comes after the matches listed before it and before those listed after it, so `glob("<prefix>*")` keeps listing order |
| FileTree.GlobPrefixComplete | validation.py:71 | a prefix glob misses no entry whose name starts with the prefix |
| FileTree.GlobPrefixEmptyIff | validation.py:71 | a prefix glob is empty exactly when no entry's name starts with the prefix |
| FileTree.GlobContains | validation.py:42 | `glob("*<sub>*")` yields only entries whose names contain the fragment, and no more entries than the listing has; `GlobContainsAt` adds that they come in listing order |
| FileTree.GlobContainsAppend | validation.py:42 | a substring glob over two listings laid end to end is the glob over the first followed by the glob over the second |
| FileTree.GlobContainsAt | validation.py:42 | a matching entry at position `k` comes after the matches listed before it and before those listed after it, so `glob("*<sub>*")` keeps listing order |
| FileTree.GlobContainsComplete | validation.py:42 | a substring glob misses no entry whose name contains the fragment |
| FileTree.GlobContainsEmptyIff | validation.py:33 | `any(glob("*req*"))` is false exactly when the glob is empty |
| FileTree.ContainsAt | validation.py:33 | a fragment that occurs at some position of a name is matched by the substring glob |
| FileTree.ContainsPosition | validation.py:33 | conversely, a name matched by the substring glob has the fragment at some position |
| FileTree.MissingCharNotContained | validation.py:42 | a name lacking one of the fragment's characters is not matched |
| FileTree.Lookup | validation.py:21-22 | `parent / name` resolves to an entry with exactly that name |
| FileTree.LookupFinds | validation.py:44 | `exists()` holds exactly when some entry, a file or a directory, has the name; the entry found is the first such |
| PathNames.LastDot | validation.py:43 | the position found is a dot, and no dot follows it |
| PathNames.Suffix | validation.py:43 | `suffix` is empty, or it is a dot and at least one more character at the end of the name, shorter than the name |
| PathNames.WithJsonSuffix | validation.py:43 | `with_suffix(".json")` ends in ".json" and keeps a prefix of the name |
| PathNames.SuffixIsFinalExtension | validation.py:43 | when the last dot is neither the first nor the last character, only what follows it is replaced by ".json" |
| PathNames.NoSuffixIff | validation.py:43 | a name has no suffix exactly when it is empty, ends in a dot or has no dot after its first character, and then ".json" is appended |
| PathNames.CompanionOfImage | validation.py:43 | "sub-01_ses-01_bold.nii" is paired with "sub-01_ses-01_bold.json" |
| PathNames.CompanionOfCompressedImage | validation.py:43 | "a_bold.nii.gz" is paired with "a_bold.nii.json": only the final suffix is replaced |
| PathNames.CompanionOfTrailingDot | validation.py:43 | "a_bold.nii." has no suffix and is paired with "a_bold.nii..json" |
| PathNames.WithJsonSuffixIdempotent | validation.py:43 | a companion name is its own companion |
| Flattening.FlattenStep | validation.py:32-39 | one loop iteration grows the list by the issues of the next item, at its end |
| Flattening.FlattenSingle | validation.py:71-72 | a one-item listing yields the issues of that item |
| Flattening.FlattenAppend | validation.py:72 | the issues of two listings laid end to end are the issues of the first followed by those of the second |
| Flattening.FlattenHead | validation.py:71-72 | the issues are those of the first item followed by those of the rest |
| Flattening.FlattenAt | validation.py:71-72 | the issues of item `i` follow those of every earlier item and precede those of every later one |
| Flattening.FlattenAround | validation.py:71-72 | the issues of an item placed between two listings sit between the issues of those listings |
| Flattening.FlattenMembers | validation.py:70-72 | an issue is in the list exactly when it is among the issues of some item |
| Flattening.FlattenEmpty | validation.py:70-72 | the list is empty exactly when every item yields no issue |
| Flattening.FlattenLength | validation.py:70-72 | the length of the list is the sum of the items' issue counts |
| Flattening.FlattenAtMostOne | validation.py:32-39 | items that each yield at most one issue yield no more issues than there are items |
| Validation.CheckSubject | validation.py:10-62 | `_check_subject` returns the session issues of the `ses-*` entries, concatenated in enumeration order |
| Validation.CheckSession | validation.py:21-60 | one iteration of the session loop yields the session's issues: the "func dir" issue alone, or the required-file issues followed by the run issues |
| Validation.CheckRuns | validation.py:42-60 | the run loop yields each `*bold.nii*` entry's companion issue, in enumeration order |
| Validation.ValidateCohort | validation.py:65-73 | `validate_cohort` returns the subject issues of the `sub-*` entries, concatenated in enumeration order |
| ValidationProperties.RequiredIssuesExplained | validation.py:32-39 | an issue comes from the required-file loop exactly when it names one of the fragments, is "missing", carries the subject and session, and no `func` entry has that fragment in its name; there is at most one issue per fragment |
| ValidationProperties.RequiredFuncsIndependent | validation.py:32-39 | the two fragments are checked independently, "bold.nii" first, so a session gets zero, one or two such issues |
| ValidationProperties.RequiredFuncsNotJson | validation.py:6 | no required fragment ends in ".json" |
| ValidationProperties.RunOutcome | validation.py:42-60 | each run has exactly one of three outcomes: no issue when the companion has RepetitionTime, one "no TR" issue when it exists without it, and one "missing" issue when no entry has its name; either issue names the companion |
| ValidationProperties.RunIssuesMatchRule | validation.py:42-60 | an issue comes from the run loop exactly when some `*bold.nii*` entry's companion is missing or lacks RepetitionTime, and the issue names that companion |
| ValidationProperties.RunIssuesAtMostOnePerRun | validation.py:42-60 | the run loop yields at most one issue per run |
| ValidationProperties.RunsInOrder | validation.py:42-60 | run issues follow the order in which the `func` listing enumerates the runs: the issue of the run at position `k` comes after those of runs listed before it and before those of runs listed after it |
| ValidationProperties.RunIssueNamesCompanion | validation.py:51 | a run's issue names the run's companion |
| ValidationProperties.RunIssuesNameJson | validation.py:58 | every run issue names a file ending in ".json" |
| ValidationProperties.SessionIssuesExplained | validation.py:21-60 | every issue of a session carries the subject and session names and is accounted for by one of the rules; every rule that fires yields its issue |
| ValidationProperties.SessionIssueNames | validation.py:31-60 | in a session with `func`, every issue names a required fragment or a ".json" file, and the required-file issues come before the run issues |
| ValidationProperties.FuncDirFoundNoLabel | validation.py:21-29 | a session that has a `func` entry never yields the "func dir" issue |
| ValidationProperties.FuncDirShortCircuit | validation.py:21-29 | a session has no entry named `func` exactly when it yields the single "func dir" issue, and exactly when that issue is among its issues |
| ValidationProperties.CleanSessionNoIssues | validation.py:21-60 | a session that passes every rule yields no issue |
| ValidationProperties.NoRequiredIssuesAllPresent | validation.py:32-39 | when the required-file loop yields nothing, every required fragment occurs in some `func` entry's name |
| ValidationProperties.NoRunIssuesGoodCompanions | validation.py:42-60 | when the run loop yields nothing, every run's companion exists, is a JSON object and has RepetitionTime |
| ValidationProperties.NoIssuesCleanSession | validation.py:21-60 | a session that yields no issue passes every rule |
| ValidationProperties.SessionCleanIff | validation.py:21-60 | a session yields no issue exactly when it passes every rule |
| CohortProperties.CohortIssueCount | validation.py:70-73 | the report is the first subject's issues followed by the other subjects', and its length is the sum of the subjects' issue counts |
| CohortProperties.SessionsInOrder | validation.py:20 | a subject's issues follow the order in which its listing enumerates the `ses-*` entries: those of the entry at position `k` come after those of `ses-*` entries listed before it and before those listed after it |
| CohortProperties.SubjectsInOrder | validation.py:71-72 | the report follows the order in which the root's listing enumerates the `sub-*` entries: the issues of the entry at position `k` come after those of `sub-*` entries listed before it and before those listed after it |
| CohortProperties.NoSubjectsNoIssues | validation.py:71-73 | a root with no `sub-*` entry is read to the end and yields an empty report |
| CohortProperties.SubjectIssuesExplained | validation.py:20-60 | an issue is reported for a subject exactly when a rule accounts for it in one of the subject's `ses-*` entries |
| CohortProperties.SessionIssuesInCohort | validation.py:71-72 | every issue of every `ses-*` entry of every `sub-*` entry is in the report |
| CohortProperties.CohortIssueSource | validation.py:71-72 | every issue in the report comes from a `ses-*` entry of a `sub-*` entry, and its subject and session fields name that pair |
| CohortProperties.CohortIssuesExplained | validation.py:65-73 | an issue is in the report exactly when a rule accounts for it in some `ses-*` entry of some `sub-*` entry |
| CohortProperties.NoIssuesCleanCohort | validation.py:65-73 | an empty report means that every session of every subject passes every rule |
| CohortProperties.CleanCohortNoIssues | test-validation.py:15-16 | a cohort whose every session passes every rule yields an empty report |
| CohortProperties.CohortCleanIff | validation.py:65-73 | the report is empty exactly when every session of every subject passes every rule |
| Scenarios.OneSessionIssues | validation.py:71-72 | a cohort with one subject and one session reports exactly that session's issues |
| Scenarios.NoFuncDirScenario | validation.py:21-29 | a session without `func` yields the single row (sub-01, ses-01, "func dir", missing) |
| Scenarios.ImageIsRun | validation.py:42 | "sub-01_ses-01_bold.nii" matches `*bold.nii*` |
| Scenarios.CompanionIsNotRun | validation.py:42 | "sub-01_ses-01_bold.json" does not match `*bold.nii*` |
| Scenarios.ConfoundsIsNotRun | validation.py:42 | the confounds table does not match `*bold.nii*` |
| Scenarios.ImageIsOnlyRun | validation.py:42 | the image is the only run of the scenario's `func` listing |
| Scenarios.RequiredPresent | validation.py:32-33 | both required fragments occur in the scenario's `func` listing |
| Scenarios.CompanionName | validation.py:43 | the scenario image's companion is "sub-01_ses-01_bold.json" |
| Scenarios.CompanionFound | validation.py:44 | the companion is found in the scenario's `func` listing |
| Scenarios.FuncSessionIssues | validation.py:31-60 | the scenario session yields no issue when its companion has RepetitionTime, else one "no TR" row naming the companion |
| Scenarios.CleanScenario | test-validation.py:15-16 | a complete one-session cohort yields an empty report |
| Scenarios.EmptyJsonScenario | validation.py:47-53 | the same cohort with an empty JSON object as the companion yields one "no TR" row |

## Left out

- The pandas `DataFrame` wrapper of `validate_cohort` (validation.py:73): the report is the sequence of records. `problem` is a two-valued datatype, and `Validation.Label` gives its text.
- `REQUIRED_JSON_KEYS` (validation.py:7) is never used by the code. The key "RepetitionTime" is written into the check itself, and the model does the same.
- Real filesystem access: the tree is an input value, and the order of each listing is an input too. Symbolic links, permissions, a cohort root that does not exist, and case-insensitive matching on Windows are not modelled. A directory listing is assumed to hold each name at most once; `Lookup` takes the first match.
- Validation.CheckSubject, Validation.CheckSession, Validation.CheckRuns, Validation.ValidateCohort: they require that every companion that exists is a file holding a JSON object. Where the source raises on a directory, an unreadable file or malformed JSON there (validation.py:45-46), the model gives no result. JSON values other than objects, such as a list or a string, are out of scope too; `in` on them tests membership or a substring rather than a key. The specification functions are total, and they give a "no TR" issue for such a companion; that value is never produced by the code.
- `PathNames.Suffix` follows `PurePath.suffix` as it is before Python 3.14: a name ending in a dot has no suffix. Python 3.14 changed that case.
- Neither validation.py nor fmri_check/__main__.py has a multi-cohort mode or a `cohort` column: `validate_cohort` is called on one root. The command line (fmri_check/__main__.py) and packaging (fmri_check/setup.py) are not part of this model.
- test-validation.py runs `validate_cohort` on a bundled sample tree that is not among the sources. Its claim, an empty report for a complete cohort, is stated as `CohortProperties.CleanCohortNoIssues` and `Scenarios.CleanScenario`.
