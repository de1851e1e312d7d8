/**
 * Choice of a default runner path by operating system (src/helper.ts).
 * The platform string that `os.platform()` reports is a parameter.
 */
module Helper {

  /** The three candidate paths, one per operating-system family. */
  datatype OsPaths = OsPaths(linux: string, mac: string, windows: string)

  /** `p && p.match(/^win/) !== null`: a non-empty platform starting with "win". */
  predicate IsWindows(p: string): (windows: bool)
    ensures windows <==> exists rest :: p == "win" + rest
  {
    if |p| >= 3 && p[..3] == "win" then
      assert p == "win" + p[3..];
      true
    else
      false
  }

  /** `list.indexOf(p)`: the first position holding `p`, or -1. */
  function IndexOf(list: seq<string>, p: string): (i: int)
    ensures -1 <= i < |list|
    ensures i == -1 <==> p !in list
    ensures i >= 0 ==> list[i] == p && p !in list[..i]
  {
    if |list| == 0 then -1
    else if list[0] == p then 0
    else
      var j := IndexOf(list[1..], p);
      if j == -1 then -1
      else
        assert list[..j + 1] == [list[0]] + list[1..][..j];
        j + 1
  }

  /** The platforms `isMacOS` lists. */
  const MacPlatforms: seq<string> := ["darwin", "freebsd"]

  /** The platforms `isLinux` lists. */
  const LinuxPlatforms: seq<string> := ["aix", "android", "linux"]

  /** `MacPlatforms.indexOf(p) >= 0`: exactly darwin and freebsd. */
  predicate IsMacOS(p: string): (mac: bool)
    ensures mac <==> p == "darwin" || p == "freebsd"
  {
    IndexOf(MacPlatforms, p) >= 0
  }

  /** `LinuxPlatforms.indexOf(p) >= 0`: exactly aix, android and linux. */
  predicate IsLinux(p: string): (linux: bool)
    ensures linux <==> p == "aix" || p == "android" || p == "linux"
  {
    IndexOf(LinuxPlatforms, p) >= 0
  }

  /**
   * The Windows path for a Windows platform, else the macOS path for a
   * macOS platform, else the Linux path.
   */
  function DefaultJestPathForOS(paths: OsPaths, platform: string): (path: string)
    ensures path in {paths.linux, paths.mac, paths.windows}
    ensures IsWindows(platform) ==> path == paths.windows
    ensures !IsWindows(platform) && IsMacOS(platform) ==> path == paths.mac
    ensures !IsWindows(platform) && !IsMacOS(platform) ==> path == paths.linux
  {
    if IsWindows(platform) then paths.windows
    else if IsMacOS(platform) then paths.mac
    else paths.linux
  }

  /** No platform belongs to two of the three families. */
  lemma FamiliesDisjoint(p: string)
    ensures !(IsWindows(p) && IsMacOS(p))
    ensures !(IsWindows(p) && IsLinux(p))
    ensures !(IsMacOS(p) && IsLinux(p))
  {
    if IsWindows(p) {
      assert p[0] == p[..3][0] == 'w';
    }
  }

  /**
   * Each family gets its own path whatever the order of the tests, and a
   * platform of none of the families (for example "sunos" or "cygwin")
   * falls back to the Linux path.
   */
  lemma PathForEachFamily(paths: OsPaths, p: string)
    ensures IsWindows(p) ==> DefaultJestPathForOS(paths, p) == paths.windows
    ensures IsMacOS(p) ==> DefaultJestPathForOS(paths, p) == paths.mac
    ensures IsLinux(p) ==> DefaultJestPathForOS(paths, p) == paths.linux
    ensures !IsWindows(p) && !IsMacOS(p) && !IsLinux(p) ==> DefaultJestPathForOS(paths, p) == paths.linux
  {
    FamiliesDisjoint(p);
  }

  /** The platform names Node.js reports, and the path each selects. */
  lemma KnownPlatforms(paths: OsPaths)
    ensures DefaultJestPathForOS(paths, "win32") == paths.windows
    ensures DefaultJestPathForOS(paths, "darwin") == paths.mac
    ensures DefaultJestPathForOS(paths, "freebsd") == paths.mac
    ensures DefaultJestPathForOS(paths, "linux") == paths.linux
    ensures DefaultJestPathForOS(paths, "aix") == paths.linux
    ensures DefaultJestPathForOS(paths, "android") == paths.linux
    ensures DefaultJestPathForOS(paths, "openbsd") == paths.linux
    ensures DefaultJestPathForOS(paths, "sunos") == paths.linux
    ensures DefaultJestPathForOS(paths, "cygwin") == paths.linux
    ensures DefaultJestPathForOS(paths, "haiku") == paths.linux
    ensures DefaultJestPathForOS(paths, "netbsd") == paths.linux
    ensures DefaultJestPathForOS(paths, "") == paths.linux
  {
    assert "win32"[..3] == "win";
    NotWindows("darwin");
    NotWindows("freebsd");
    NotWindows("linux");
    NotWindows("aix");
    NotWindows("android");
    NotWindows("openbsd");
    NotWindows("sunos");
    NotWindows("cygwin");
    NotWindows("haiku");
    NotWindows("netbsd");
  }

  /** A platform that does not start with 'w' is not a Windows platform. */
  lemma NotWindows(p: string)
    requires |p| > 0 && p[0] != 'w'
    ensures !IsWindows(p)
  {
    assert |p| >= 3 ==> p[..3][0] == p[0];
  }
}
