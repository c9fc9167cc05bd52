/** A pinned package of a base-image lockfile and how it is named on the command line of the
    distribution's package manager. */
module UnchangingPackages {
  import opened Wrappers
  import opened Text
  import opened OSDistributions

  /** The four-field record; each field may be null. Its accessors are the field selectors. */
  datatype UnchangingPackage = UnchangingPackage(
    name: Option<string>,
    version: Option<string>,
    release: Option<string>,
    architecture: Option<string>)

  /** The `IllegalArgumentException` thrown for a distribution without a pin format. */
  datatype IllegalArgument = IllegalArgument

  /** `String.format("%s", x)`: a null argument prints as `null`. */
  function Fmt(x: Option<string>): string
  {
    x.GetOr("null")
  }

  /** The release part of an APT pin: nothing for a null or empty release, else `-release`. */
  function AptReleaseSuffix(release: Option<string>): (r: string)
    ensures r == "" <==> (release.None? || release.value == "")
  {
    if release.None? || release.value == "" then "" else "-" + release.value
  }

  /** `getPackageName`: `name-version-release.architecture` for yum, `name=version[-release]` for
      apt, an error for any other distribution. */
  function GetPackageName(p: UnchangingPackage, d: OSDistribution): (r: Result<string, IllegalArgument>)
    ensures r.Err? <==> d == Other
  {
    match d
    case Centos =>
      Ok(Fmt(p.name) + "-" + Fmt(p.version) + "-" + Fmt(p.release) + "." + Fmt(p.architecture))
    case Ubuntu => Ok(Fmt(p.name) + "=" + Fmt(p.version) + AptReleaseSuffix(p.release))
    case Debian => Ok(Fmt(p.name) + "=" + Fmt(p.version) + AptReleaseSuffix(p.release))
    case Other => Err(IllegalArgument)
  }

  /** Ubuntu and Debian pin a package the same way. */
  lemma {:induction false} AptDistributionsAgree(p: UnchangingPackage)
    ensures GetPackageName(p, Ubuntu) == GetPackageName(p, Debian)
  {
  }

  /** The architecture plays no part in an APT pin. */
  lemma {:induction false} AptIgnoresArchitecture(p: UnchangingPackage, arch: Option<string>)
    ensures GetPackageName(p.(architecture := arch), Ubuntu) == GetPackageName(p, Ubuntu)
    ensures GetPackageName(p.(architecture := arch), Debian) == GetPackageName(p, Debian)
  {
  }

  /** A null or empty release gives `name=version`, with no trailing hyphen. */
  lemma {:induction false} AptWithoutRelease(name: string, version: string, release: Option<string>, arch: Option<string>)
    requires release.None? || release.value == ""
    ensures GetPackageName(UnchangingPackage(Some(name), Some(version), release, arch), Ubuntu)
      == Ok(name + "=" + version)
  {
    assert name + "=" + version + "" == name + "=" + version;
  }

  /** Reading an APT pin back: split at `=` it gives the name and the version with the release
      suffix; that suffix, split at `-`, gives the version and then the release's pieces. */
  lemma {:induction false} AptPinParts(name: string, version: string, release: string, arch: Option<string>)
    requires '=' !in name && '=' !in version && '=' !in release
    requires '-' !in version && release != ""
    ensures var r := GetPackageName(UnchangingPackage(Some(name), Some(version), Some(release), arch), Ubuntu);
      r.Ok? &&
      Split(r.value, '=') == [name, version + "-" + release] &&
      Split(version + "-" + release, '-') == [version] + Split(release, '-')
  {
    var tail := version + "-" + release;
    assert '=' !in tail;
    SplitNoSeparator(tail, '=');
    SplitAtSeparator(name, '=', tail);
    SplitAtSeparator(version, '-', release);
    assert name + "=" + version + AptReleaseSuffix(Some(release)) == name + ['='] + tail;
    assert version + "-" + release == version + ['-'] + release;
  }

  /** Reading a yum pin back: the text after its last dot is the architecture (when the
      architecture has no dot), and it starts with the name and a hyphen. */
  lemma {:induction false} CentosPinParts(p: UnchangingPackage)
    requires '.' !in Fmt(p.architecture)
    ensures var r := GetPackageName(p, Centos);
      var pieces := Split(r.value, '.');
      r.Ok? && pieces[|pieces| - 1] == Fmt(p.architecture) && Fmt(p.name) + "-" <= r.value
  {
    var front := Fmt(p.name) + "-" + Fmt(p.version) + "-" + Fmt(p.release);
    var arch := Fmt(p.architecture);
    assert GetPackageName(p, Centos).value == front + ['.'] + arch;
    SplitConcat(front, '.', arch);
    SplitNoSeparator(arch, '.');
  }

  /** Reading a yum pin back at its hyphens: when no field but the release-and-architecture
      tail has a hyphen, the pin splits into the name, the version, and `release.architecture`. */
  lemma {:induction false} CentosPinWords(p: UnchangingPackage)
    requires '-' !in Fmt(p.name) && '-' !in Fmt(p.version)
    requires '-' !in Fmt(p.release) && '-' !in Fmt(p.architecture)
    ensures var r := GetPackageName(p, Centos);
      r.Ok? && Split(r.value, '-') == [Fmt(p.name), Fmt(p.version), Fmt(p.release) + "." + Fmt(p.architecture)]
  {
    var name, version := Fmt(p.name), Fmt(p.version);
    var tail := Fmt(p.release) + "." + Fmt(p.architecture);
    assert '-' !in tail;
    assert GetPackageName(p, Centos).value == name + ['-'] + (version + ['-'] + tail);
    SplitAtSeparator(name, '-', version + ['-'] + tail);
    SplitAtSeparator(version, '-', tail);
    SplitNoSeparator(tail, '-');
  }
}
