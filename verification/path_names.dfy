/** File-name arithmetic of pathlib's `PurePath.suffix` and
    `PurePath.with_suffix`, on a name alone (no directory part). */
module PathNames {

  predicate EndsWith(s: string, suffix: string)
  {
    |suffix| <= |s| && s[|s| - |suffix|..] == suffix
  }

  /** Position of the last '.' in `s`, or -1 when there is none. */
  function LastDot(s: string): (i: int)
    ensures -1 <= i < |s|
    ensures i >= 0 ==> s[i] == '.'
    ensures forall j | i < j < |s| :: s[j] != '.'
  {
    if s == [] then -1
    else if s[|s| - 1] == '.' then |s| - 1
    else LastDot(s[..|s| - 1])
  }

  /** `PurePath.suffix`: the name from its last dot on, unless that dot is the
      first character (a hidden name such as ".bashrc") or the last one. */
  function Suffix(name: string): (r: string)
    ensures r == "" || (r[0] == '.' && 2 <= |r| < |name| && EndsWith(name, r))
  {
    var i := LastDot(name);
    if 0 < i < |name| - 1 then name[i..] else ""
  }

  /** `PurePath.with_suffix(".json")`: the final suffix replaced by ".json",
      or ".json" appended when the name has no suffix. */
  function WithJsonSuffix(name: string): (r: string)
    ensures EndsWith(r, ".json")
    ensures r[..|r| - 5] <= name
  {
    var suffix := Suffix(name);
    name[..|name| - |suffix|] + ".json"
  }

  /** The suffix is exactly what follows the last dot, when that dot is neither
      the first nor the last character. */
  lemma SuffixIsFinalExtension(name: string, i: nat)
    requires 0 < i < |name| - 1 && name[i] == '.'
    requires forall j | i < j < |name| :: name[j] != '.'
    ensures Suffix(name) == name[i..]
    ensures WithJsonSuffix(name) == name[..i] + ".json"
  {
    assert LastDot(name) == i;
  }

  /** A name has no suffix exactly when it ends in a dot or has no dot after
      its first character; ".json" is then appended to the whole name. */
  lemma NoSuffixIff(name: string)
    ensures Suffix(name) == "" <==>
      (name == [] || name[|name| - 1] == '.' || forall j | 0 < j < |name| :: name[j] != '.')
    ensures Suffix(name) == "" ==> WithJsonSuffix(name) == name + ".json"
  {
    var i := LastDot(name);
    if 0 < i < |name| - 1 {
      assert name[i] == '.' && name[|name| - 1] != '.';
    }
  }

  /** An uncompressed image's companion. */
  lemma CompanionOfImage()
    ensures WithJsonSuffix("sub-01_ses-01_bold.nii") == "sub-01_ses-01_bold.json"
  {
    SuffixIsFinalExtension("sub-01_ses-01_bold.nii", 18);
  }

  /** Only the final suffix goes: a compressed image keeps its ".nii". */
  lemma CompanionOfCompressedImage()
    ensures WithJsonSuffix("a_bold.nii.gz") == "a_bold.nii.json"
  {
    SuffixIsFinalExtension("a_bold.nii.gz", 10);
  }

  /** A name ending in a dot has no suffix, so ".json" is appended to it. */
  lemma CompanionOfTrailingDot()
    ensures WithJsonSuffix("a_bold.nii.") == "a_bold.nii..json"
  {
    NoSuffixIff("a_bold.nii.");
  }

  /** A companion name is its own companion, so a file such as
      "a_bold.nii.json" is checked against itself. */
  lemma {:induction false} WithJsonSuffixIdempotent(name: string)
    requires name != ""
    ensures WithJsonSuffix(WithJsonSuffix(name)) == WithJsonSuffix(name)
  {
    var r := WithJsonSuffix(name);
    var stem := name[..|name| - |Suffix(name)|];
    assert r == stem + ".json";
    assert |stem| > 0;
    SuffixIsFinalExtension(r, |stem|);
    assert r[..|stem|] == stem;
  }
}
