/**
 * The system bookkeeping of src/index.ts: the plugin registry of `System`, the `UserSession` a
 * login opens and the processes it creates. The fields the shell plugin adds to sessions
 * (`aliases`, `prevDir`) and processes (`argv`, `env`) are declared here with the rest.
 */
module Sys {
  import opened Wrappers
  import opened Streams
  import opened FileSystems
  import opened Users

  /** A plugin as the registry sees it: its id and the ids it requires, if it lists any. */
  datatype Plugin = Plugin(id: string, needs: Option<seq<string>>)

  const BASH_PLUGIN := Plugin("bash", None)
  const COREUTILS_PLUGIN := Plugin("coreutils", Some(["bash"]))

  /** `umask` of every new process. */
  const UMASK := 0x12

  /** The environment every shell process gets. */
  const DEFAULT_ENV: map<string, string> := map[
    "PATH" := "/usr/bin:/usr/local/bin:/bin", "SHLVL" := "1", "SHELL" := "/bin/bash", "TERM" := "none",
    "PS1" := "", "PS2" := "> ", "HISTFILE" := "~/.bash_history", "EDITOR" := "vim", "VISUAL" := "vim",
    "LANG" := "en_US.utf8", "HOSTNAME" := "fake-node", "TMPDIR" := "/tmp", "LS_COLORS" := LsColors(':')]

  /** The `dircolors` database the environment carries, its entries ended by `sep`; nothing in the system reads it. */
  function LsColors(sep: char): string
  {
    "rs=0" + [sep] + "di=01;34" + [sep] + "ln=01;36" + [sep] + "mh=00" + [sep] + "pi=40;33" + [sep] + "so=01;35" + [sep] + "do=01;35" + [sep] +
    "bd=40;33;01" + [sep] + "cd=40;33;01" + [sep] + "or=40;31;01" + [sep] + "mi=00" + [sep] + "su=37;41" + [sep] + "sg=30;43" + [sep] + "ca=00" + [sep] +
    "tw=30;42" + [sep] + "ow=34;42" + [sep] + "st=37;44" + [sep] + "ex=01;32" + [sep] + "*.tar=01;31" + [sep] + "*.tgz=01;31" + [sep] + "*.arc=01;31" + [sep] +
    "*.arj=01;31" + [sep] + "*.taz=01;31" + [sep] + "*.lha=01;31" + [sep] + "*.lz4=01;31" + [sep] + "*.lzh=01;31" + [sep] + "*.lzma=01;31" + [sep] + "*.tlz=01;31" + [sep] +
    "*.txz=01;31" + [sep] + "*.tzo=01;31" + [sep] + "*.t7z=01;31" + [sep] + "*.zip=01;31" + [sep] + "*.z=01;31" + [sep] + "*.dz=01;31" + [sep] + "*.gz=01;31" + [sep] +
    "*.lrz=01;31" + [sep] + "*.lz=01;31" + [sep] + "*.lzo=01;31" + [sep] + "*.xz=01;31" + [sep] + "*.zst=01;31" + [sep] + "*.tzst=01;31" + [sep] + "*.bz2=01;31" + [sep] +
    "*.bz=01;31" + [sep] + "*.tbz=01;31" + [sep] + "*.tbz2=01;31" + [sep] + "*.tz=01;31" + [sep] + "*.deb=01;31" + [sep] + "*.rpm=01;31" + [sep] + "*.jar=01;31" + [sep] +
    "*.war=01;31" + [sep] + "*.ear=01;31" + [sep] + "*.sar=01;31" + [sep] + "*.rar=01;31" + [sep] + "*.alz=01;31" + [sep] + "*.ace=01;31" + [sep] + "*.zoo=01;31" + [sep] +
    "*.cpio=01;31" + [sep] + "*.7z=01;31" + [sep] + "*.rz=01;31" + [sep] + "*.cab=01;31" + [sep] + "*.wim=01;31" + [sep] + "*.swm=01;31" + [sep] + "*.dwm=01;31" + [sep] +
    "*.esd=01;31" + [sep] + "*.avif=01;35" + [sep] + "*.jpg=01;35" + [sep] + "*.jpeg=01;35" + [sep] + "*.mjpg=01;35" + [sep] + "*.mjpeg=01;35" + [sep] + "*.gif=01;35" + [sep] +
    "*.bmp=01;35" + [sep] + "*.pbm=01;35" + [sep] + "*.pgm=01;35" + [sep] + "*.ppm=01;35" + [sep] + "*.tga=01;35" + [sep] + "*.xbm=01;35" + [sep] + "*.xpm=01;35" + [sep] +
    "*.tif=01;35" + [sep] + "*.tiff=01;35" + [sep] + "*.png=01;35" + [sep] + "*.svg=01;35" + [sep] + "*.svgz=01;35" + [sep] + "*.mng=01;35" + [sep] + "*.pcx=01;35" + [sep] +
    "*.mov=01;35" + [sep] + "*.mpg=01;35" + [sep] + "*.mpeg=01;35" + [sep] + "*.m2v=01;35" + [sep] + "*.mkv=01;35" + [sep] + "*.webm=01;35" + [sep] + "*.webp=01;35" + [sep] +
    "*.ogm=01;35" + [sep] + "*.mp4=01;35" + [sep] + "*.m4v=01;35" + [sep] + "*.mp4v=01;35" + [sep] + "*.vob=01;35" + [sep] + "*.qt=01;35" + [sep] + "*.nuv=01;35" + [sep] +
    "*.wmv=01;35" + [sep] + "*.asf=01;35" + [sep] + "*.rm=01;35" + [sep] + "*.rmvb=01;35" + [sep] + "*.flc=01;35" + [sep] + "*.avi=01;35" + [sep] + "*.fli=01;35" + [sep] +
    "*.flv=01;35" + [sep] + "*.gl=01;35" + [sep] + "*.dl=01;35" + [sep] + "*.xcf=01;35" + [sep] + "*.xwd=01;35" + [sep] + "*.yuv=01;35" + [sep] + "*.cgm=01;35" + [sep] +
    "*.emf=01;35" + [sep] + "*.ogv=01;35" + [sep] + "*.ogx=01;35" + [sep] + "*.aac=00;36" + [sep] + "*.au=00;36" + [sep] + "*.flac=00;36" + [sep] + "*.m4a=00;36" + [sep] +
    "*.mid=00;36" + [sep] + "*.midi=00;36" + [sep] + "*.mka=00;36" + [sep] + "*.mp3=00;36" + [sep] + "*.mpc=00;36" + [sep] + "*.ogg=00;36" + [sep] + "*.ra=00;36" + [sep] +
    "*.wav=00;36" + [sep] + "*.oga=00;36" + [sep] + "*.opus=00;36" + [sep] + "*.spx=00;36" + [sep] + "*.xspf=00;36" + [sep] + "*~=00;90" + [sep] + "*#=00;90" + [sep] +
    "*.bak=00;90" + [sep] + "*.crdownload=00;90" + [sep] + "*.dpkg-dist=00;90" + [sep] + "*.dpkg-new=00;90" + [sep] + "*.dpkg-old=00;90" + [sep] + "*.dpkg-tmp=00;90" + [sep] + "*.old=00;90" + [sep] +
    "*.orig=00;90" + [sep] + "*.part=00;90" + [sep] + "*.rej=00;90" + [sep] + "*.rpmnew=00;90" + [sep] + "*.rpmorig=00;90" + [sep] + "*.rpmsave=00;90" + [sep] + "*.swp=00;90" + [sep] +
    "*.tmp=00;90" + [sep] + "*.ucf-dist=00;90" + [sep] + "*.ucf-new=00;90" + [sep] + "*.ucf-old=00;90" + [sep]
  }

  /** What the base `UserSession.run` does with any process. */
  const CANNOT_RUN := "cannot run processes"

  /**
   * The first id of `ids` that is not among `added`, which `addPlugin` reports; `None`
   * when every required id is there.
   */
  function FirstMissing(added: seq<string>, ids: seq<string>): (r: Option<string>)
    ensures r.None? <==> forall id :: id in ids ==> id in added
    ensures r.Some? ==> r.value in ids && r.value !in added
    ensures r.Some? ==> exists k :: 0 <= k < |ids| && ids[k] == r.value && forall j :: 0 <= j < k ==> ids[j] in added
  {
    if |ids| == 0 then None
    else if ids[0] !in added then Some(ids[0])
    else
      var r := FirstMissing(added, ids[1..]);
      if r.Some? then
        var k :| 0 <= k < |ids[1..]| && ids[1..][k] == r.value && forall j :: 0 <= j < k ==> ids[1..][j] in added;
        assert ids[k + 1] == r.value;
        r
      else
        assert forall id :: id in ids ==> id == ids[0] || id in ids[1..];
        r
  }

  /**
   * The outcome of `addPlugin(p)` when calling the plugin itself has the outcome `call`: an id
   * already added and then a missing requirement are refused before the plugin is called.
   */
  function AddResult(added: seq<string>, p: Plugin, call: Result<()>): (r: Result<()>)
  {
    if p.id in added then Err("plugin " + p.id + " is already added")
    else if p.needs.Some? && FirstMissing(added, p.needs.value).Some? then
      Err("cannot add plugin " + p.id + " because plugin " + FirstMissing(added, p.needs.value).value + " is not added")
    else call
  }

  /** Every plugin id is registered at most once. */
  predicate Distinct(ids: seq<string>)
  {
    forall i, j :: 0 <= i < j < |ids| ==> ids[i] != ids[j]
  }

  /** A process of a session. */
  class Process {
    const pid: nat
    const priority: int
    var uid: Num
    var gid: Num
    var cwd: Option<string>
    var umask: int
    const stdin: Stream
    const stdout: Stream
    const stderr: Stream
    var exitCode: Option<Num>
    var argv: seq<string>
    var env: map<string, string>

    constructor(pid: nat, uid: Num, gid: Num, cwd: Option<string>, argv: seq<string>)
      ensures this.pid == pid && priority == 0 && this.uid == uid && this.gid == gid && this.cwd == cwd
      ensures umask == UMASK && exitCode == None && this.argv == argv && env == DEFAULT_ENV
      ensures fresh(stdin) && fresh(stdout) && fresh(stderr) && stdout != stderr
      ensures stdin.data == "" && stdout.data == "" && stderr.data == ""
      ensures stdin.pos == 0 && stdout.pos == 0 && stderr.pos == 0
    {
      this.pid := pid;
      priority := 0;
      this.uid := uid;
      this.gid := gid;
      this.cwd := cwd;
      umask := UMASK;
      stdin := new Stream("");
      stdout := new Stream("");
      stderr := new Stream("");
      exitCode := None;
      this.argv := argv;
      env := DEFAULT_ENV;
    }
  }

  class System {
    const fs: FileSystem
    const um: UserManager
    const hostname: string
    var processes: seq<Process>
    var addedPluginIds: seq<string>
    /** The ids each added plugin required, in the order the plugins were added. */
    ghost var required: seq<seq<string>>

    /**
     * The registry never holds an id twice, every plugin's requirements were added before it,
     * and every process's pid is its index in the process list.
     */
    ghost predicate Valid()
      reads this
    {
      Distinct(addedPluginIds) && |required| == |addedPluginIds|
      && (forall k, id :: 0 <= k < |required| && id in required[k] ==> id in addedPluginIds[..k])
      && (forall k :: 0 <= k < |processes| ==> processes[k].pid == k)
    }

    /**
     * `new System(addDefaultPlugins)` over a file system already holding the default tree: the
     * shell plugin and then the coreutils plugin are added, each call succeeding.
     */
    constructor(fs: FileSystem, addDefaultPlugins: bool)
      ensures Valid() && this.fs == fs && um.fs == fs && hostname == "fake-system" && processes == []
      ensures addedPluginIds == if addDefaultPlugins then ["bash", "coreutils"] else []
    {
      this.fs := fs;
      um := new UserManager(fs);
      hostname := "fake-system";
      processes := [];
      addedPluginIds := [];
      required := [];
      new;
      if addDefaultPlugins {
        var r := AddPlugin(BASH_PLUGIN, Ok(()));
        r := AddPlugin(COREUTILS_PLUGIN, Ok(()));
      }
    }

    /**
     * `addPlugin(plugin)`: refused for an id already added and for the first required id not
     * added yet; otherwise the plugin is called (its outcome is `call`) and its id is recorded
     * only when that call returns.
     */
    method AddPlugin(p: Plugin, call: Result<()>) returns (r: Result<()>)
      requires Valid()
      modifies this
      ensures Valid() && processes == old(processes)
      ensures r == AddResult(old(addedPluginIds), p, call)
      ensures addedPluginIds == if r.Ok? then old(addedPluginIds) + [p.id] else old(addedPluginIds)
    {
      if p.id in addedPluginIds {
        return Err("plugin " + p.id + " is already added");
      }
      if p.needs.Some? {
        var reqs := p.needs.value;
        for k := 0 to |reqs|
          invariant forall j :: 0 <= j < k ==> reqs[j] in addedPluginIds
        {
          if reqs[k] !in addedPluginIds {
            assert FirstMissing(addedPluginIds, reqs) == Some(reqs[k]) by {
              FirstMissingAt(addedPluginIds, reqs, k);
            }
            return Err("cannot add plugin " + p.id + " because plugin " + reqs[k] + " is not added");
          }
        }
        assert forall id :: id in reqs ==> id in addedPluginIds;
      }
      assert AddResult(addedPluginIds, p, call) == call;
      if call.Err? {
        return call;
      }
      ghost var before := addedPluginIds;
      addedPluginIds := addedPluginIds + [p.id];
      required := required + [if p.needs.Some? then p.needs.value else []];
      assert addedPluginIds[..|before|] == before;
      forall k, id | 0 <= k < |required| && id in required[k]
        ensures id in addedPluginIds[..k]
      {
        if k < |before| {
          assert addedPluginIds[..k] == before[..k];
        } else {
          assert addedPluginIds[..k] == before;
        }
      }
      r := call;
    }

    /** `login(user)`: a session for the user the key finds, or the error of that lookup. */
    method Login(key: Key) returns (r: Result<UserSession>)
      requires fs.Valid() && um.fs == fs
      ensures match DBRead(fs.nodes, PASSWD)
              case Err(e) => r == Err(e)
              case Ok(t) =>
                match GetUser(t, key)
                case Err(e) => r == Err(e)
                case Ok(u) => r.Ok? && r.value.system == this && r.value.Record() == u && r.value.cwd == u.homedir
    {
      var data := um.GetUserData(key);
      if data.Err? {
        return Err(data.msg);
      }
      var session := new UserSession(this, data.value);
      r := Ok(session);
    }
  }

  lemma FirstMissingAt(added: seq<string>, ids: seq<string>, k: nat)
    requires k < |ids| && ids[k] !in added && forall j :: 0 <= j < k ==> ids[j] in added
    ensures FirstMissing(added, ids) == Some(ids[k])
  {
    if k > 0 {
      FirstMissingAt(added, ids[1..], k - 1);
    }
  }

  /**
   * A logged-in user: a copy of the user's record, a working directory that starts at the home
   * directory, and the shell's aliases and previous directory.
   */
  class UserSession {
    const system: System
    var name: string
    var uid: Num
    var gid: Num
    var info: Option<string>
    var homedir: Option<string>
    var shell: Option<string>
    var cwd: Option<string>
    var aliases: map<string, string>
    var prevDir: Option<string>
    var throwUnintentionalCommandErrors: bool

    /** The user record the session's fields hold. */
    function Record(): UserRecord
      reads this
    {
      UserRecord(name, uid, gid, info, homedir, shell)
    }

    /** `new UserSession(system, user)` once the lookup gave `u`; the shell's `login` adds no aliases and `prevDir` = home. */
    constructor(system: System, u: UserRecord)
      ensures this.system == system && Record() == u && cwd == u.homedir
      ensures aliases == map[] && prevDir == u.homedir && !throwUnintentionalCommandErrors
    {
      this.system := system;
      name := u.name;
      uid := u.uid;
      gid := u.gid;
      info := u.info;
      homedir := u.homedir;
      shell := u.shell;
      cwd := u.homedir;
      aliases := map[];
      prevDir := u.homedir;
      throwUnintentionalCommandErrors := false;
    }

    /**
     * `createProcess(...argv)`: the next pid is the number of processes so far; owner and working
     * directory come from the session; exactly one process is appended.
     */
    method CreateProcess(argv: seq<string>) returns (p: Process)
      requires system.Valid()
      modifies system`processes
      ensures system.Valid() && system.addedPluginIds == old(system.addedPluginIds)
      ensures fresh(p) && fresh(p.stdin) && fresh(p.stdout) && fresh(p.stderr) && p.stdout != p.stderr
      ensures system.processes == old(system.processes) + [p]
      ensures p.pid == |old(system.processes)| && p.uid == uid && p.gid == gid && p.cwd == cwd
      ensures p.umask == UMASK && p.exitCode == None && p.argv == argv && p.env == DEFAULT_ENV
      ensures p.stdin.data == "" && p.stdout.data == "" && p.stderr.data == ""
      ensures p.stdin.pos == 0 && p.stdout.pos == 0 && p.stderr.pos == 0
    {
      p := new Process(|system.processes|, uid, gid, cwd, argv);
      system.processes := system.processes + [p];
    }
  }

  /** The base `run`, before the shell plugin replaces it: it always throws. */
  function BaseRun(p: Process): (r: Result<()>)
    ensures r == Err(CANNOT_RUN)
  {
    Err(CANNOT_RUN)
  }

  /** A plugin is refused while one of its requirements is missing, and the registry is unchanged. */
  lemma MissingRequirementRefused(added: seq<string>, p: Plugin, call: Result<()>, id: string)
    requires p.id !in added && p.needs.Some? && id in p.needs.value && id !in added
    ensures AddResult(added, p, call).Err?
  {
  }

  /** Once added, a plugin id is refused forever after. */
  lemma AddedRefused(added: seq<string>, p: Plugin, call: Result<()>)
    requires p.id in added
    ensures AddResult(added, p, call) == Err("plugin " + p.id + " is already added")
  {
  }

  /** A plugin whose requirements are all added and whose call returns is added. */
  lemma AddAccepted(added: seq<string>, p: Plugin)
    requires p.id !in added && (p.needs.Some? ==> forall id :: id in p.needs.value ==> id in added)
    ensures AddResult(added, p, Ok(())) == Ok(())
  {
  }
}
