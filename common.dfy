/**
 * Where the programs keep their files and find each other's executables:
 * the per-platform configuration and data directories, and the mapping from
 * logical program names to executable file names.
 */
module Common {

  datatype Platform = Windows | MacOS | Linux

  /**
   * What the directory lookup reads from the host: the environment, the home
   * directory, and the per-user application-data locations Qt reports
   * (`AppDataLocation`, `AppLocalDataLocation`).
   */
  datatype Host = Host(platform: Platform, env: map<string, string>, home: string, appData: string, localAppData: string)

  datatype PlatformDirs = PlatformDirs(configDir: string, dataDir: string)

  /** The directory name the application appends to every base directory. */
  const APP_DIR: string := "/discord-draw-rpc"

  /** `qEnvironmentVariable`: the value, or "" when the variable is not set. */
  function EnvVar(env: map<string, string>, name: string): (v: string)
    ensures name !in env ==> v == ""
  {
    if name in env then env[name] else ""
  }

  /** A variable's value, or `fallback` when it is unset or empty. */
  function EnvOr(env: map<string, string>, name: string, fallback: string): (v: string)
    ensures EnvVar(env, name) != "" ==> v == env[name]
    ensures EnvVar(env, name) == "" ==> v == fallback
  {
    if EnvVar(env, name) != "" then EnvVar(env, name) else fallback
  }

  /**
   * `getPlatformDirs`: Windows splits roaming configuration from local data,
   * macOS keeps both under Application Support, and Linux follows the XDG base
   * directories with their documented fallbacks under the home directory.
   */
  function GetPlatformDirs(h: Host): (d: PlatformDirs)
    ensures h.platform == Windows ==> d == PlatformDirs(h.appData + APP_DIR, h.localAppData + APP_DIR)
    ensures h.platform == MacOS ==> d.configDir == d.dataDir == h.appData + APP_DIR
    ensures h.platform == Linux ==> d.configDir == EnvOr(h.env, "XDG_CONFIG_HOME", h.home + "/.config") + APP_DIR
    ensures h.platform == Linux ==> d.dataDir == EnvOr(h.env, "XDG_DATA_HOME", h.home + "/.local/share") + APP_DIR
  {
    match h.platform
    case Windows => PlatformDirs(h.appData + APP_DIR, h.localAppData + APP_DIR)
    case MacOS => PlatformDirs(h.appData + APP_DIR, h.appData + APP_DIR)
    case Linux =>
      var configHome := if EnvVar(h.env, "XDG_CONFIG_HOME") == "" then h.home + "/.config" else EnvVar(h.env, "XDG_CONFIG_HOME");
      var dataHome := if EnvVar(h.env, "XDG_DATA_HOME") == "" then h.home + "/.local/share" else EnvVar(h.env, "XDG_DATA_HOME");
      PlatformDirs(configHome + APP_DIR, dataHome + APP_DIR)
  }

  /** Both directories of every platform are the application's own directory under some base. */
  lemma DirsEndInAppDir(h: Host)
    ensures var d := GetPlatformDirs(h);
      |d.configDir| >= |APP_DIR| && d.configDir[|d.configDir| - |APP_DIR|..] == APP_DIR &&
      |d.dataDir| >= |APP_DIR| && d.dataDir[|d.dataDir| - |APP_DIR|..] == APP_DIR
  {
    var d := GetPlatformDirs(h);
    var cb := d.configDir[..|d.configDir| - |APP_DIR|];
    var db := d.dataDir[..|d.dataDir| - |APP_DIR|];
    assert d.configDir == cb + APP_DIR;
    assert d.dataDir == db + APP_DIR;
  }

  /** On Linux with no XDG variables set, the directories are the documented defaults under the home directory. */
  lemma LinuxDefaults(h: Host)
    requires h.platform == Linux && "XDG_CONFIG_HOME" !in h.env && "XDG_DATA_HOME" !in h.env
    ensures GetPlatformDirs(h) == PlatformDirs(h.home + "/.config/discord-draw-rpc", h.home + "/.local/share/discord-draw-rpc")
  {
    assert h.home + "/.config" + APP_DIR == h.home + "/.config/discord-draw-rpc";
    assert h.home + "/.local/share" + APP_DIR == h.home + "/.local/share/discord-draw-rpc";
  }

  /** The executable file name of a program: the three known programs by table, anything else as is (plus ".exe" on Windows). */
  function ExecutableName(platform: Platform, name: string): (exe: string)
    ensures platform != Windows && name == "discord_rpc_daemon" ==> exe == "DiscordDrawRPCDaemon"
    ensures platform != Windows && name == "discord_rpc_gui" ==> exe == "DiscordDrawRPC"
    ensures platform != Windows && name == "discord_rpc_tray" ==> exe == "DiscordDrawRPCTray"
    ensures platform != Windows && name !in {"discord_rpc_daemon", "discord_rpc_gui", "discord_rpc_tray"} ==> exe == name
  {
    var unix :=
      if name == "discord_rpc_daemon" then "DiscordDrawRPCDaemon"
      else if name == "discord_rpc_gui" then "DiscordDrawRPC"
      else if name == "discord_rpc_tray" then "DiscordDrawRPCTray"
      else name;
    if platform == Windows then unix + ".exe" else unix
  }

  /** `getExecutablePath`: the executable's file name inside the running program's directory. */
  function ExecutablePath(exeDir: string, platform: Platform, name: string): (p: string)
    ensures |p| == |exeDir| + 1 + |ExecutableName(platform, name)|
    ensures p[..|exeDir|] == exeDir && p[|exeDir|] == '/' && p[|exeDir| + 1..] == ExecutableName(platform, name)
  {
    exeDir + "/" + ExecutableName(platform, name)
  }

  /** Every Windows executable name is the Unix one with ".exe" appended, known name or not. */
  lemma WindowsNameIsUnixNamePlusExe(name: string)
    ensures ExecutableName(Windows, name) == ExecutableName(Linux, name) + ".exe"
    ensures ExecutableName(MacOS, name) == ExecutableName(Linux, name)
  {
  }
}
