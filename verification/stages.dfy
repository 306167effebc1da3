/** The installation stages after disk preparation, as the commands each one issues:
    `setup_chroot_mounts`, the command part of `configure_base_system` (with the locale
    id it derives), `install_kernel`, `install_bootloader`,
    `install_desktop_environment` and `finalize_install`; and `run_install`, which chains
    them. File writes, captured helper output and prints are not commands and are not
    modelled. */
module Stages {
  import opened Wrappers
  import opened Text
  import opened Config
  import opened Executor
  import opened Disks

  /** `os.path.join(a, b)` on POSIX paths. */
  function PathJoin(a: string, b: string): (p: string)
    ensures StartsWith(b, "/") ==> p == b
    ensures !StartsWith(b, "/") && a != "" ==> StartsWith(p, a) && |b| <= |p| && p[|p| - |b|..] == b
    ensures !StartsWith(b, "/") && a != "" ==> p == a + b || p == a + "/" + b
    ensures !StartsWith(b, "/") && a != "" ==> (p == a + b <==> a[|a| - 1] == '/')
    ensures a == "" ==> p == b
  {
    if StartsWith(b, "/") || a == "" then b
    else if a[|a| - 1] == '/' then a + b
    else a + "/" + b
  }

  // ---------------------------------------------------------------------------
  // setup_chroot_mounts

  /** The seven bind mounts of the host's pseudo file systems into `root`. */
  function ChrootMounts(root: string): (cmds: seq<Argv>)
    ensures |cmds| == 7
    ensures forall k :: 0 <= k < 7 ==> |cmds[k]| >= 3 && cmds[k][0] == "mount"
    ensures root != "" && root[|root| - 1] != '/' ==>
      cmds == PseudoMounts(root + "/proc", root + "/sys", root + "/dev", root + "/run")
  {
    Relative("proc"); Relative("sys"); Relative("dev"); Relative("run");
    assert root + "/" + "proc" == root + "/proc" && root + "/" + "sys" == root + "/sys";
    assert root + "/" + "dev" == root + "/dev" && root + "/" + "run" == root + "/run";
    PseudoMounts(PathJoin(root, "proc"), PathJoin(root, "sys"), PathJoin(root, "dev"), PathJoin(root, "run"))
  }

  /** Under `/mnt/gentoo` the targets are `/mnt/gentoo/proc`, `/mnt/gentoo/sys`,
      `/mnt/gentoo/dev` and `/mnt/gentoo/run`. */
  lemma GentooChrootTargets()
    ensures ChrootMounts(GentooRoot) ==
      PseudoMounts("/mnt/gentoo/proc", "/mnt/gentoo/sys", "/mnt/gentoo/dev", "/mnt/gentoo/run")
  {
    assert GentooRoot[|GentooRoot| - 1] == 'o';
    assert GentooRoot + "/proc" == "/mnt/gentoo/proc" && GentooRoot + "/sys" == "/mnt/gentoo/sys";
    assert GentooRoot + "/dev" == "/mnt/gentoo/dev" && GentooRoot + "/run" == "/mnt/gentoo/run";
  }

  /** The mounts onto the given targets for `proc`, `sys`, `dev` and `run`. */
  function PseudoMounts(proc: string, sys: string, dev: string, run: string): (cmds: seq<Argv>)
    ensures |cmds| == 7
    ensures forall k :: 0 <= k < 7 ==> |cmds[k]| >= 3 && cmds[k][0] == "mount"
  {
    [ ["mount", "--types", "proc", "/proc", proc],
      ["mount", "--rbind", "/sys", sys],
      ["mount", "--make-rslave", sys],
      ["mount", "--rbind", "/dev", dev],
      ["mount", "--make-rslave", dev],
      ["mount", "--rbind", "/run", run],
      ["mount", "--make-rslave", run] ]
  }

  /** `proc` is mounted first, each recursive bind of `/sys`, `/dev` or `/run` is followed at
      once by making the same target a slave mount, and every command ends in one of the four
      targets. */
  lemma PseudoMountsPaired(proc: string, sys: string, dev: string, run: string)
    ensures var cmds := PseudoMounts(proc, sys, dev, run);
      && cmds[0][..3] == ["mount", "--types", "proc"]
      && (forall k :: 0 <= k < 7 && cmds[k][1] == "--rbind" ==>
            k + 1 < 7 && cmds[k + 1] == ["mount", "--make-rslave", cmds[k][3]] && cmds[k][2] in {"/sys", "/dev", "/run"})
      && (forall k :: 0 <= k < 7 ==> cmds[k][|cmds[k]| - 1] in {proc, sys, dev, run})
  {
  }

  /** Every chroot mount target lies under `root`. */
  lemma ChrootMountsUnderRoot(root: string)
    requires root != ""
    ensures var cmds := ChrootMounts(root);
      forall k :: 0 <= k < 7 ==> |cmds[k]| > 0 && StartsWith(cmds[k][|cmds[k]| - 1], root)
  {
    var proc, sys, dev, run := PathJoin(root, "proc"), PathJoin(root, "sys"), PathJoin(root, "dev"), PathJoin(root, "run");
    JoinedUnder(root, "proc");
    JoinedUnder(root, "sys");
    JoinedUnder(root, "dev");
    JoinedUnder(root, "run");
    PseudoMountsPaired(proc, sys, dev, run);
  }

  lemma JoinedUnder(root: string, name: string)
    requires root != "" && name != "" && name[0] != '/'
    ensures StartsWith(PathJoin(root, name), root)
  {
  }

  // ---------------------------------------------------------------------------
  // configure_base_system: locale id

  /** The locale id derived from `language`: an empty language means `en_US`; a language
      that already names an encoding is kept, any other gets `.UTF-8`. */
  function LocaleId(language: string): (id: string)
    ensures '.' in id
  {
    var lang := if language == "" then "en_US" else language;
    if '.' in lang then lang else lang + ".UTF-8"
  }

  /** The derived id starts with the language and only adds `.UTF-8` when there is no dot. */
  lemma LocaleIdExtends(language: string)
    requires language != ""
    ensures StartsWith(LocaleId(language), language)
    ensures '.' in language <==> LocaleId(language) == language
    ensures '.' !in language ==> LocaleId(language)[|language|..] == ".UTF-8"
  {
    if '.' !in language {
      assert '.' in LocaleId(language);
    }
  }

  /** Deriving twice changes nothing. */
  lemma LocaleIdIdempotent(language: string)
    ensures LocaleId(LocaleId(language)) == LocaleId(language)
  {
  }

  lemma LocaleIdDefault()
    ensures LocaleId("") == "en_US.UTF-8"
  {
  }

  // ---------------------------------------------------------------------------
  // install_kernel and configure_base_system

  /** A command run through `run_in_chroot` under `/mnt/gentoo`. */
  function Chroot(cmd: Argv, policy: Policy): Step {
    Run(InChroot(GentooRoot, cmd), policy)
  }

  /** `install_kernel`: linux-firmware (failure only warns), then the chosen kernel; an
      unknown mode installs no kernel. */
  function PlanKernel(kernel: string): (steps: seq<Step>)
    ensures |steps| >= 1
    ensures steps[0] == Chroot(["emerge", "--quiet-build=n", "sys-kernel/linux-firmware"], BestEffort)
  {
    [Chroot(["emerge", "--quiet-build=n", "sys-kernel/linux-firmware"], BestEffort)]
      + if kernel == "dist-kernel" then [Chroot(["emerge", "--quiet-build=n", "sys-kernel/gentoo-kernel-bin"], Fatal)]
        else if kernel == "genkernel" then
          [Chroot(["emerge", "sys-kernel/gentoo-sources", "sys-kernel/genkernel"], Fatal), Chroot(["genkernel", "all"], Fatal)]
        else if kernel == "manual" then [Chroot(["emerge", "sys-kernel/gentoo-sources"], Fatal)]
        else []
  }

  /** The number of kernel commands per mode: one for `dist-kernel` and `manual`, two for
      `genkernel`, none for anything else. */
  lemma PlanKernelModes(kernel: string)
    ensures |PlanKernel(kernel)| ==
      1 + (if kernel == "dist-kernel" || kernel == "manual" then 1 else if kernel == "genkernel" then 2 else 0)
    ensures forall i :: 1 <= i < |PlanKernel(kernel)| ==> PolicyOf(PlanKernel(kernel)[i]) == Fatal
  {
  }

  /** The four commands whose failure `configure_base_system` and `install_kernel` only warn
      about. */
  predicate IsBestEffortCommand(cmd: Argv) {
    || cmd == ["emerge", "--quiet-build=n", "sys-kernel/linux-firmware"]
    || cmd == ["emerge", "--config", "sys-libs/timezone-data"]
    || cmd == ["emerge", "--sync"]
    || cmd == ["emerge", "--noreplace", "app-portage/cpuid2cpuflags"]
  }

  /** `configure_base_system`'s commands: the chroot mounts, `locale-gen`, the timezone-data
      configuration, the tree sync, cpuid2cpuflags, then the kernel. */
  function PlanBaseSystem(c: InstallConfig): (steps: seq<Step>)
    ensures |steps| >= 12
  {
    DiskSteps(ChrootMounts(GentooRoot))
      + [ Chroot(["locale-gen"], Fatal),
          Chroot(["emerge", "--config", "sys-libs/timezone-data"], BestEffort),
          Chroot(["emerge", "--sync"], BestEffort),
          Chroot(["emerge", "--noreplace", "app-portage/cpuid2cpuflags"], BestEffort) ]
      + PlanKernel(c.kernel)
  }

  /** A step's policy says best effort exactly for the four guarded chroot commands. */
  predicate GuardedAsInSource(s: Step) {
    s.Run? && (s.policy == BestEffort <==>
      OutOfChroot(s.argv).Some? && IsBestEffortCommand(OutOfChroot(s.argv).value.1))
  }

  lemma ChrootGuarded(cmd: Argv, policy: Policy)
    requires policy == BestEffort <==> IsBestEffortCommand(cmd)
    ensures GuardedAsInSource(Chroot(cmd, policy))
  {
    OutOfChrootInChroot(GentooRoot, cmd);
  }

  lemma {:induction false} AppendGuarded(a: seq<Step>, b: seq<Step>)
    requires forall i :: 0 <= i < |a| ==> GuardedAsInSource(a[i])
    requires forall i :: 0 <= i < |b| ==> GuardedAsInSource(b[i])
    ensures forall i :: 0 <= i < |a + b| ==> GuardedAsInSource((a + b)[i])
  {
    forall i | 0 <= i < |a + b|
      ensures GuardedAsInSource((a + b)[i])
    {
      if i >= |a| {
        assert (a + b)[i] == b[i - |a|];
      }
    }
  }

  lemma KernelGuarded(kernel: string)
    ensures forall i :: 0 <= i < |PlanKernel(kernel)| ==> GuardedAsInSource(PlanKernel(kernel)[i])
  {
    ChrootGuarded(["emerge", "--quiet-build=n", "sys-kernel/linux-firmware"], BestEffort);
    ChrootGuarded(["emerge", "--quiet-build=n", "sys-kernel/gentoo-kernel-bin"], Fatal);
    ChrootGuarded(["emerge", "sys-kernel/gentoo-sources", "sys-kernel/genkernel"], Fatal);
    ChrootGuarded(["genkernel", "all"], Fatal);
    ChrootGuarded(["emerge", "sys-kernel/gentoo-sources"], Fatal);
  }

  lemma ConfigureGuarded()
    ensures var steps := [ Chroot(["locale-gen"], Fatal),
                           Chroot(["emerge", "--config", "sys-libs/timezone-data"], BestEffort),
                           Chroot(["emerge", "--sync"], BestEffort),
                           Chroot(["emerge", "--noreplace", "app-portage/cpuid2cpuflags"], BestEffort) ];
      forall i :: 0 <= i < |steps| ==> GuardedAsInSource(steps[i])
  {
    ChrootGuarded(["locale-gen"], Fatal);
    ChrootGuarded(["emerge", "--config", "sys-libs/timezone-data"], BestEffort);
    ChrootGuarded(["emerge", "--sync"], BestEffort);
    ChrootGuarded(["emerge", "--noreplace", "app-portage/cpuid2cpuflags"], BestEffort);
  }

  /** Fatal steps for commands that do not enter the chroot agree with the source's guards. */
  lemma MountsGuarded(cmds: seq<Argv>)
    requires forall i :: 0 <= i < |cmds| ==> |cmds[i]| > 0 && cmds[i][0] == "mount"
    ensures forall i :: 0 <= i < |cmds| ==> GuardedAsInSource(DiskSteps(cmds)[i])
  {
  }

  /** Only the four guarded commands are best effort; every other command is fatal. */
  lemma BaseSystemPolicies(c: InstallConfig)
    ensures forall i :: 0 <= i < |PlanBaseSystem(c)| ==> GuardedAsInSource(PlanBaseSystem(c)[i])
  {
    var mounts := DiskSteps(ChrootMounts(GentooRoot));
    var configure := [ Chroot(["locale-gen"], Fatal),
                       Chroot(["emerge", "--config", "sys-libs/timezone-data"], BestEffort),
                       Chroot(["emerge", "--sync"], BestEffort),
                       Chroot(["emerge", "--noreplace", "app-portage/cpuid2cpuflags"], BestEffort) ];
    MountsGuarded(ChrootMounts(GentooRoot));
    ConfigureGuarded();
    KernelGuarded(c.kernel);
    AppendGuarded(mounts, configure);
    AppendGuarded(mounts + configure, PlanKernel(c.kernel));
  }

  // ---------------------------------------------------------------------------
  // install_bootloader

  /** Why a stage stops the installer partway. */
  datatype InstallError =
    | Disk(error: DiskError)
    | GrubWithoutDisk   // `" ".join` of a `None` target disk raises

  /** The commands of a stage or a run, and the error that stops it partway, if any. */
  datatype Plan = Plan(steps: seq<Step>, stop: Option<InstallError>)

  /** `install_bootloader`. systemd-boot needs UEFI; grub is emerged and then installed for
      EFI or onto the target disk, and its configuration written; anything else installs
      nothing. Without UEFI and without a target disk, the grub package is already emerged
      when building the `grub-install` line fails. */
  function PlanBootloader(c: InstallConfig): (p: Plan)
    ensures p.stop.Some? <==> c.bootloader == "grub" && c.useUefi != Some(true) && c.targetDisk.None?
    ensures p.stop.Some? ==> p == Plan([Chroot(["emerge", "sys-boot/grub"], Fatal)], Some(GrubWithoutDisk))
  {
    if c.bootloader == "systemd-boot" then
      if c.useUefi != Some(true) then Plan([], None)
      else Plan([Chroot(["bootctl", "--path=/boot", "install"], Fatal)], None)
    else if c.bootloader == "grub" then
      var emerge := Chroot(["emerge", "sys-boot/grub"], Fatal);
      var mkconfig := Chroot(["grub-mkconfig", "-o", "/boot/grub/grub.cfg"], Fatal);
      if c.useUefi == Some(true) then
        Plan([emerge, Chroot(["grub-install", "--target=x86_64-efi", "--efi-directory=/boot", "--bootloader-id=Gentoo"], Fatal), mkconfig], None)
      else if c.targetDisk.None? then Plan([emerge], Some(GrubWithoutDisk))
      else Plan([emerge, Chroot(["grub-install", c.targetDisk.value], Fatal), mkconfig], None)
    else Plan([], None)
  }

  /** systemd-boot installs `bootctl` exactly under UEFI; an unknown bootloader emits
      nothing; a completed grub plan emits its package, one `grub-install` (for EFI under
      UEFI, onto the target disk otherwise) and the configuration last. */
  lemma BootloaderDispatch(c: InstallConfig)
    ensures c.bootloader == "systemd-boot" ==>
      PlanBootloader(c) == Plan(if c.useUefi == Some(true) then [Chroot(["bootctl", "--path=/boot", "install"], Fatal)] else [], None)
    ensures c.bootloader != "systemd-boot" && c.bootloader != "grub" ==> PlanBootloader(c) == Plan([], None)
    ensures c.bootloader == "grub" && PlanBootloader(c).stop.None? ==>
      var steps := PlanBootloader(c).steps;
      && |steps| == 3
      && steps[0] == Chroot(["emerge", "sys-boot/grub"], Fatal)
      && steps[1].argv[2] == "grub-install"
      && (c.useUefi == Some(true) <==> |steps[1].argv| == 6)
      && (c.useUefi != Some(true) ==> steps[1].argv[2..] == ["grub-install", c.targetDisk.value])
      && steps[2] == Chroot(["grub-mkconfig", "-o", "/boot/grub/grub.cfg"], Fatal)
  {
  }

  // ---------------------------------------------------------------------------
  // install_desktop_environment

  /** A `DESKTOP_PROFILES` entry. */
  datatype Profile = Profile(name: string, description: string, packages: seq<string>, services: seq<string>)

  /** `DESKTOP_PROFILES`. */
  const Profiles: map<string, Profile> := map[
    "none" := Profile("none", "No desktop environment (console-only system)", [], []),
    "gnome" := Profile("gnome", "GNOME desktop environment", ["gnome-base/gnome"], ["gdm"]),
    "plasma" := Profile("plasma", "KDE Plasma desktop environment", ["kde-plasma/plasma-meta"], ["sddm"]),
    "xfce" := Profile("xfce", "Xfce desktop environment", ["xfce-base/xfce4-meta"], ["lightdm"])]

  /** Every profile is stored under its own name. */
  lemma ProfilesKeyedByName()
    ensures forall k :: k in Profiles ==> Profiles[k].name == k
    ensures Profiles.Keys == {"none", "gnome", "plasma", "xfce"}
  {
  }

  /** The `systemctl enable` commands for the services, in order. */
  function EnableAll(services: seq<string>): (steps: seq<Step>)
    ensures |steps| == |services|
    ensures forall i :: 0 <= i < |services| ==> steps[i] == Chroot(["systemctl", "enable", services[i]], Fatal)
  {
    if services == [] then [] else [Chroot(["systemctl", "enable", services[0]], Fatal)] + EnableAll(services[1..])
  }

  /** The commands for one profile: its packages in one `emerge` (skipped when there are
      none), then one `systemctl enable` per service. */
  function ProfileSteps(p: Profile): seq<Step> {
    (if p.packages != [] then [Chroot(["emerge", "--quiet-build=n"] + p.packages, Fatal)] else [])
      + EnableAll(p.services)
  }

  /** `install_desktop_environment`: an unset or unknown profile and the `none` profile
      install nothing. */
  function PlanDesktop(c: InstallConfig): (steps: seq<Step>)
    ensures c.desktopProfile.None? || c.desktopProfile.value !in Profiles ==> steps == []
  {
    if c.desktopProfile.None? || c.desktopProfile.value !in Profiles then []
    else
      var p := Profiles[c.desktopProfile.value];
      if p.name == "none" then [] else ProfileSteps(p)
  }

  /** A known desktop profile other than `none` installs its packages with one `emerge` and
      then enables each of its services, in order. */
  lemma DesktopDispatch(c: InstallConfig)
    ensures c.desktopProfile == Some("none") ==> PlanDesktop(c) == []
    ensures c.desktopProfile.Some? && c.desktopProfile.value in Profiles && c.desktopProfile.value != "none" ==>
      var p := Profiles[c.desktopProfile.value];
      var steps := PlanDesktop(c);
      && |steps| == 1 + |p.services|
      && steps[0] == Chroot(["emerge", "--quiet-build=n"] + p.packages, Fatal)
      && forall i :: 0 <= i < |p.services| ==> steps[1 + i] == Chroot(["systemctl", "enable", p.services[i]], Fatal)
  {
    ProfilesKeyedByName();
  }

  // ---------------------------------------------------------------------------
  // finalize_install

  /** The NetworkManager commands for the network modes that use it. */
  function NetworkSteps(mode: string): seq<Step> {
    if mode == "nm_default" then
      [ Chroot(["emerge", "--quiet-build=n", "net-misc/networkmanager"], Fatal),
        Chroot(["systemctl", "enable", "NetworkManager"], Fatal) ]
    else if mode == "nm_iwd" then
      [ Chroot(["emerge", "--quiet-build=n", "net-misc/networkmanager", "net-wireless/iwd"], Fatal),
        Chroot(["systemctl", "enable", "NetworkManager"], Fatal),
        Chroot(["systemctl", "enable", "iwd"], Fatal) ]
    else []
  }

  /** The time synchronisation service enabled at the very end. */
  const TimeSync := Chroot(["systemctl", "enable", "systemd-timesyncd"], Fatal)

  /** `finalize_install`: the root password, the user account and its password, sudo,
      networking, and time synchronisation last. */
  function PlanFinalize(c: InstallConfig): (steps: seq<Step>)
    ensures |steps| >= 1 && steps[|steps| - 1] == TimeSync
  {
    PasswordSteps("root", c.rootPassword) + UserSteps(c.username, c.userPassword) + ServiceSteps(c)
  }

  /** `_set_password` for a password that is set and non-empty. */
  function PasswordSteps(user: string, password: Option<string>): seq<Step> {
    if Truthy(password) then [SetPassword(user, password.value)] else []
  }

  /** The user account and its password, when a user name is set. */
  function UserSteps(username: Option<string>, password: Option<string>): seq<Step> {
    if Truthy(username) then
      [Chroot(["useradd", "-m", "-G", "wheel,audio,video", "-s", "/bin/bash", username.value], Fatal)]
        + PasswordSteps(username.value, password)
    else []
  }

  /** sudo, networking and time synchronisation. */
  function ServiceSteps(c: InstallConfig): seq<Step> {
    (if c.userIsSudoer then [Chroot(["emerge", "--noreplace", "sudo"], Fatal)] else [])
      + NetworkSteps(c.networkMode)
      + [TimeSync]
  }

  /** Networking: NetworkManager is installed and enabled only for the two `nm_` modes,
      and `iwd` is installed and enabled only for `nm_iwd`. */
  lemma NetworkDispatch(mode: string)
    ensures NetworkSteps(mode) != [] <==> mode == "nm_default" || mode == "nm_iwd"
    ensures (exists i :: 0 <= i < |NetworkSteps(mode)| && NetworkSteps(mode)[i] == Chroot(["systemctl", "enable", "iwd"], Fatal))
      <==> mode == "nm_iwd"
    ensures NetworkSteps(mode) != [] ==>
      NetworkSteps(mode)[0] == Chroot(["emerge", "--quiet-build=n", "net-misc/networkmanager"]
        + (if mode == "nm_iwd" then ["net-wireless/iwd"] else []), Fatal)
  {
    if mode == "nm_iwd" {
      assert NetworkSteps(mode)[2] == Chroot(["systemctl", "enable", "iwd"], Fatal);
    }
    if mode == "nm_default" {
      assert NetworkSteps(mode)[1].argv != Chroot(["systemctl", "enable", "iwd"], Fatal).argv by {
        assert NetworkSteps(mode)[1].argv[4] != "iwd";
      }
    }
  }

  /** The password steps among `steps`, in order. */
  function PasswordsOf(steps: seq<Step>): (pw: seq<Step>)
    ensures |pw| <= |steps|
  {
    if steps == [] then []
    else (if steps[0].SetPassword? then [steps[0]] else []) + PasswordsOf(steps[1..])
  }

  lemma {:induction false} PasswordsOfAppend(a: seq<Step>, b: seq<Step>)
    ensures PasswordsOf(a + b) == PasswordsOf(a) + PasswordsOf(b)
  {
    if a == [] {
      assert a + b == b;
    } else {
      var head := if a[0].SetPassword? then [a[0]] else [];
      assert (a + b)[0] == a[0];
      assert (a + b)[1..] == a[1..] + b;
      PasswordsOfAppend(a[1..], b);
      assert PasswordsOf(a + b) == head + PasswordsOf(a[1..] + b);
      assert PasswordsOf(a) == head + PasswordsOf(a[1..]);
    }
  }

  lemma {:induction false} PasswordsOfRuns(steps: seq<Step>)
    requires forall i :: 0 <= i < |steps| ==> steps[i].Run?
    ensures PasswordsOf(steps) == []
  {
    if steps != [] {
      PasswordsOfRuns(steps[1..]);
    }
  }

  /** Passwords are set for root when its password is set, then for the user when both the
      user and the password are set; no other finalize step sets a password. */
  lemma FinalizePasswords(c: InstallConfig)
    ensures PasswordsOf(PlanFinalize(c)) ==
      (if Truthy(c.rootPassword) then [SetPassword("root", c.rootPassword.value)] else [])
        + (if Truthy(c.username) && Truthy(c.userPassword) then [SetPassword(c.username.value, c.userPassword.value)] else [])
  {
    var r, u, v := PasswordSteps("root", c.rootPassword), UserSteps(c.username, c.userPassword), ServiceSteps(c);
    NetworkStepsRun(c.networkMode);
    assert forall i :: 0 <= i < |v| ==> v[i].Run?;
    PasswordsOfRuns(v);
    PasswordsOfAppend(r, u);
    PasswordsOfAppend(r + u, v);
    if Truthy(c.username) {
      var add := [Chroot(["useradd", "-m", "-G", "wheel,audio,video", "-s", "/bin/bash", c.username.value], Fatal)];
      PasswordsOfAppend(add, PasswordSteps(c.username.value, c.userPassword));
    }
  }

  lemma NetworkStepsRun(mode: string)
    ensures forall i :: 0 <= i < |NetworkSteps(mode)| ==> NetworkSteps(mode)[i].Run?
  {
  }

  // ---------------------------------------------------------------------------
  // run_install

  /** `run_install` without the stage3 unpacking: disks, base system, bootloader, desktop,
      finalize. A disk error stops before any command; a grub error stops after the base
      system. */
  function PlanInstall(c: InstallConfig, confirmWipe: bool, confirmFormat: bool): (p: Plan)
    ensures p.stop.None? ==> |p.steps| >= 13
  {
    Assemble(PlanDisks(c, confirmWipe, confirmFormat), PlanBaseSystem(c), PlanBootloader(c), PlanDesktop(c), PlanFinalize(c))
  }

  /** The stages in the order `run_install` calls them, cut short by the first error. */
  function Assemble(disks: Result<seq<Argv>, DiskError>, base: seq<Step>, boot: Plan, desktop: seq<Step>, finalize: seq<Step>): (p: Plan)
    ensures p.stop.None? ==> |p.steps| >= |base| + |finalize|
  {
    match disks
    case Failure(e) => Plan([], Some(Disk(e)))
    case Success(plan) =>
      var upToBoot := DiskSteps(plan) + base;
      if boot.stop.Some? then Plan(upToBoot + boot.steps, boot.stop)
      else Plan(upToBoot + boot.steps + desktop + finalize, None)
  }

  /** How a run ends: a disk error stops it before any command; a grub error stops it right
      after the grub package; otherwise the time synchronisation service comes last. */
  lemma PlanInstallStops(c: InstallConfig, confirmWipe: bool, confirmFormat: bool)
    ensures var p := PlanInstall(c, confirmWipe, confirmFormat);
      && (PlanDisks(c, confirmWipe, confirmFormat).Failure? <==> p.stop.Some? && p.stop.value.Disk?)
      && (PlanDisks(c, confirmWipe, confirmFormat).Failure? ==>
            p == Plan([], Some(Disk(PlanDisks(c, confirmWipe, confirmFormat).error))))
      && (p.stop == Some(GrubWithoutDisk) ==> p.steps != [] && p.steps[|p.steps| - 1] == Chroot(["emerge", "sys-boot/grub"], Fatal))
      && (p.stop.None? ==> p.steps[|p.steps| - 1] == TimeSync)
  {
    AssembleStops(PlanDisks(c, confirmWipe, confirmFormat), PlanBaseSystem(c), PlanBootloader(c), PlanDesktop(c), PlanFinalize(c));
  }

  lemma AssembleStops(disks: Result<seq<Argv>, DiskError>, base: seq<Step>, boot: Plan, desktop: seq<Step>, finalize: seq<Step>)
    requires boot.stop.Some? ==> boot == Plan([Chroot(["emerge", "sys-boot/grub"], Fatal)], Some(GrubWithoutDisk))
    requires finalize != [] && finalize[|finalize| - 1] == TimeSync
    ensures var p := Assemble(disks, base, boot, desktop, finalize);
      && (disks.Failure? <==> p.stop.Some? && p.stop.value.Disk?)
      && (disks.Failure? ==> p == Plan([], Some(Disk(disks.error))))
      && (p.stop == Some(GrubWithoutDisk) ==> p.steps != [] && p.steps[|p.steps| - 1] == Chroot(["emerge", "sys-boot/grub"], Fatal))
      && (p.stop.None? ==> p.steps[|p.steps| - 1] == TimeSync)
  {
  }

  /** Only the finalize stage sets passwords, so a stopped run sets none. */
  lemma PlanInstallPasswords(c: InstallConfig, confirmWipe: bool, confirmFormat: bool)
    ensures var p := PlanInstall(c, confirmWipe, confirmFormat);
      PasswordsOf(p.steps) == (if p.stop.None? then PasswordsOf(PlanFinalize(c)) else [])
  {
    BaseSystemRuns(c);
    BootloaderRuns(c);
    DesktopRuns(c);
    AssemblePasswords(PlanDisks(c, confirmWipe, confirmFormat), PlanBaseSystem(c), PlanBootloader(c), PlanDesktop(c), PlanFinalize(c));
  }

  lemma AssemblePasswords(disks: Result<seq<Argv>, DiskError>, base: seq<Step>, boot: Plan, desktop: seq<Step>, finalize: seq<Step>)
    requires AllRun(base) && AllRun(boot.steps) && AllRun(desktop)
    ensures var p := Assemble(disks, base, boot, desktop, finalize);
      PasswordsOf(p.steps) == (if p.stop.None? then PasswordsOf(finalize) else [])
  {
    if disks.Success? {
      RunsThenPasswords(DiskSteps(disks.value), base, boot.steps, desktop, finalize);
    }
  }

  lemma BootloaderRuns(c: InstallConfig)
    ensures AllRun(PlanBootloader(c).steps)
  {
  }

  predicate AllRun(steps: seq<Step>) {
    forall i :: 0 <= i < |steps| ==> steps[i].Run?
  }

  lemma BaseSystemRuns(c: InstallConfig)
    ensures AllRun(PlanBaseSystem(c))
  {
    BaseSystemPolicies(c);
  }

  /** Stages without password steps contribute none to the run. */
  lemma RunsThenPasswords(a: seq<Step>, b: seq<Step>, c: seq<Step>, d: seq<Step>, fin: seq<Step>)
    requires AllRun(a) && AllRun(b) && AllRun(c) && AllRun(d)
    ensures PasswordsOf(a + b + c) == []
    ensures PasswordsOf(a + b + c + d + fin) == PasswordsOf(fin)
  {
    RunsAppend(a, b);
    RunsAppend(a + b, c);
    RunsAppend(a + b + c, d);
    PasswordsOfRuns(a + b + c);
    PasswordsOfRuns(a + b + c + d);
    PasswordsOfAppend(a + b + c + d, fin);
  }

  lemma RunsAppend(a: seq<Step>, b: seq<Step>)
    requires AllRun(a) && AllRun(b)
    ensures AllRun(a + b)
  {
    forall i | 0 <= i < |a + b|
      ensures (a + b)[i].Run?
    {
      if i >= |a| {
        assert (a + b)[i] == b[i - |a|];
      }
    }
  }

  lemma DesktopRuns(c: InstallConfig)
    ensures AllRun(PlanDesktop(c))
  {
    if c.desktopProfile.Some? && c.desktopProfile.value in Profiles {
      var p := Profiles[c.desktopProfile.value];
      var e := EnableAll(p.services);
      assert forall i :: 0 <= i < |e| ==> e[i].Run?;
    }
  }

  /** Two configurations that differ only in the password values, with the same passwords
      empty or unset. */
  predicate SameButPasswords(c: InstallConfig, d: InstallConfig) {
    && d == c.(rootPassword := d.rootPassword, userPassword := d.userPassword)
    && (Truthy(c.rootPassword) <==> Truthy(d.rootPassword))
    && (Truthy(c.userPassword) <==> Truthy(d.userPassword))
  }

  lemma SameStepsExceptPasswords(s: seq<Step>)
    ensures SameUpToPasswords(s, s)
  {
  }

  lemma {:induction false} SameUpToPasswordsAppend(a: seq<Step>, b: seq<Step>, a': seq<Step>, b': seq<Step>)
    requires SameUpToPasswords(a, a') && SameUpToPasswords(b, b')
    ensures SameUpToPasswords(a + b, a' + b')
  {
    var s, t := a + b, a' + b';
    forall i | 0 <= i < |s|
      ensures match s[i]
        case Run(_, _) => t[i] == s[i]
        case SetPassword(user, pw) => t[i].SetPassword? && t[i].user == user && (t[i].password == "" <==> pw == "")
    {
      if i < |a| {
        assert s[i] == a[i] && t[i] == a'[i];
      } else {
        assert s[i] == b[i - |a|] && t[i] == b'[i - |a|];
      }
    }
  }

  lemma PasswordStepsUpToPasswords(user: string, pw: Option<string>, pw': Option<string>)
    requires Truthy(pw) <==> Truthy(pw')
    ensures SameUpToPasswords(PasswordSteps(user, pw), PasswordSteps(user, pw'))
  {
  }

  lemma FinalizeUpToPasswords(c: InstallConfig, d: InstallConfig)
    requires SameButPasswords(c, d)
    ensures SameUpToPasswords(PlanFinalize(c), PlanFinalize(d))
  {
    PasswordStepsUpToPasswords("root", c.rootPassword, d.rootPassword);
    var u, u' := UserSteps(c.username, c.userPassword), UserSteps(d.username, d.userPassword);
    assert SameUpToPasswords(u, u') by {
      if Truthy(c.username) {
        var add := [Chroot(["useradd", "-m", "-G", "wheel,audio,video", "-s", "/bin/bash", c.username.value], Fatal)];
        SameStepsExceptPasswords(add);
        PasswordStepsUpToPasswords(c.username.value, c.userPassword, d.userPassword);
        SameUpToPasswordsAppend(add, PasswordSteps(c.username.value, c.userPassword), add, PasswordSteps(c.username.value, d.userPassword));
      }
    }
    assert ServiceSteps(c) == ServiceSteps(d);
    SameStepsExceptPasswords(ServiceSteps(c));
    SameUpToPasswordsAppend(PasswordSteps("root", c.rootPassword), u, PasswordSteps("root", d.rootPassword), u');
    SameUpToPasswordsAppend(PasswordSteps("root", c.rootPassword) + u, ServiceSteps(c),
                            PasswordSteps("root", d.rootPassword) + u', ServiceSteps(d));
  }

  /** The disk plan depends only on the disk fields. */
  lemma DisksIgnorePasswords(c: InstallConfig, d: InstallConfig, confirmWipe: bool, confirmFormat: bool)
    requires SameButPasswords(c, d)
    ensures PlanDisks(c, confirmWipe, confirmFormat) == PlanDisks(d, confirmWipe, confirmFormat)
  {
    assert c.diskMode == d.diskMode && c.rootPartition == d.rootPartition && c.bootPartition == d.bootPartition;
    assert c.formatPartitions == d.formatPartitions && c.targetDisk == d.targetDisk && c.useUefi == d.useUefi;
  }

  /** The base system, bootloader and desktop commands do not involve the passwords. */
  lemma StagesIgnorePasswords(c: InstallConfig, d: InstallConfig)
    requires SameButPasswords(c, d)
    ensures PlanBaseSystem(c) == PlanBaseSystem(d)
    ensures PlanBootloader(c) == PlanBootloader(d)
    ensures PlanDesktop(c) == PlanDesktop(d)
  {
    assert c.kernel == d.kernel;
    assert c.bootloader == d.bootloader && c.useUefi == d.useUefi && c.targetDisk == d.targetDisk;
    assert c.desktopProfile == d.desktopProfile;
    BaseSystemOfKernel(c, d);
  }

  lemma BaseSystemOfKernel(c: InstallConfig, d: InstallConfig)
    requires c.kernel == d.kernel
    ensures PlanBaseSystem(c) == PlanBaseSystem(d)
  {
  }

  /** The log of an installation run, dry or live, and the commands it starts do not
      depend on the passwords: only the standard input of `chpasswd` carries them. */
  lemma InstallAuditIgnoresPasswords(c: InstallConfig, d: InstallConfig, confirmWipe: bool, confirmFormat: bool,
                                     dryRun: bool, fails: Invocation -> bool)
    requires SameButPasswords(c, d)
    requires forall inv: Invocation, inv': Invocation :: inv.argv == inv'.argv ==> fails(inv) == fails(inv')
    ensures PlanInstall(c, confirmWipe, confirmFormat).stop == PlanInstall(d, confirmWipe, confirmFormat).stop
    ensures Execute(PlanInstall(c, confirmWipe, confirmFormat).steps, dryRun, fails).audit
         == Execute(PlanInstall(d, confirmWipe, confirmFormat).steps, dryRun, fails).audit
  {
    var p, q := PlanInstall(c, confirmWipe, confirmFormat), PlanInstall(d, confirmWipe, confirmFormat);
    DisksIgnorePasswords(c, d, confirmWipe, confirmFormat);
    StagesIgnorePasswords(c, d);
    if p.stop.None? {
      var pre := DiskSteps(PlanDisks(c, confirmWipe, confirmFormat).value) + PlanBaseSystem(c)
        + PlanBootloader(c).steps + PlanDesktop(c);
      FinalizeUpToPasswords(c, d);
      SameStepsExceptPasswords(pre);
      SameUpToPasswordsAppend(pre, PlanFinalize(c), pre, PlanFinalize(d));
      AuditIgnoresPasswords(p.steps, q.steps, dryRun, fails);
    } else {
      SameStepsExceptPasswords(p.steps);
      AuditIgnoresPasswords(p.steps, q.steps, dryRun, fails);
    }
  }

  /** A dry run of the installation starts nothing and logs every command it would run,
      marked as a preview; a live run without failures logs the same commands unmarked. */
  lemma InstallDryRunIsPreview(c: InstallConfig, confirmWipe: bool, confirmFormat: bool, fails: Invocation -> bool)
    ensures var steps := PlanInstall(c, confirmWipe, confirmFormat).steps;
      && Execute(steps, true, fails) == Trace(Preview(steps, true), [], false)
      && (NoFatalFailure(steps, fails) ==> Execute(steps, false, fails).audit == Preview(steps, false))
      && |Preview(steps, true)| == |Preview(steps, false)|
  {
    var steps := PlanInstall(c, confirmWipe, confirmFormat).steps;
    DryRunExecutesNothing(steps, fails);
    if NoFatalFailure(steps, fails) {
      LiveRunFollowsPreview(steps, fails);
    }
    PreviewMarkerOnly(steps);
  }

  // ---------------------------------------------------------------------------
  // run_install: the host first, then the new system

  /** A command run on the host, not through `chroot`. */
  predicate OnHost(s: Step) {
    s.Run? && OutOfChroot(s.argv).None?
  }

  /** A step that acts inside `/mnt/gentoo`: a command run through `chroot /mnt/gentoo`,
      or a password set there. */
  predicate InTarget(s: Step) {
    s.SetPassword? || (s.Run? && OutOfChroot(s.argv).Some? && OutOfChroot(s.argv).value.0 == GentooRoot)
  }

  predicate AllOnHost(steps: seq<Step>) {
    forall i :: 0 <= i < |steps| ==> OnHost(steps[i])
  }

  predicate AllInTarget(steps: seq<Step>) {
    forall i :: 0 <= i < |steps| ==> InTarget(steps[i])
  }

  lemma OnHostAppend(a: seq<Step>, b: seq<Step>)
    requires AllOnHost(a) && AllOnHost(b)
    ensures AllOnHost(a + b)
  {
    forall i | 0 <= i < |a + b|
      ensures OnHost((a + b)[i])
    {
      if i >= |a| {
        assert (a + b)[i] == b[i - |a|];
      }
    }
  }

  lemma InTargetAppend(a: seq<Step>, b: seq<Step>)
    requires AllInTarget(a) && AllInTarget(b)
    ensures AllInTarget(a + b)
  {
    forall i | 0 <= i < |a + b|
      ensures InTarget((a + b)[i])
    {
      if i >= |a| {
        assert (a + b)[i] == b[i - |a|];
      }
    }
  }

  lemma ChrootInTarget(cmd: Argv, policy: Policy)
    ensures InTarget(Chroot(cmd, policy))
  {
    OutOfChrootInChroot(GentooRoot, cmd);
  }

  /** The disk commands and the chroot mounts run on the host. */
  lemma DisksOnHost(c: InstallConfig, confirmWipe: bool, confirmFormat: bool)
    ensures PlanDisks(c, confirmWipe, confirmFormat).Success? ==>
      AllOnHost(DiskSteps(PlanDisks(c, confirmWipe, confirmFormat).value))
    ensures AllOnHost(DiskSteps(ChrootMounts(GentooRoot)))
  {
    PlanDisksOnHost(c, confirmWipe, confirmFormat);
    if PlanDisks(c, confirmWipe, confirmFormat).Success? {
      HostSteps(PlanDisks(c, confirmWipe, confirmFormat).value);
    }
    MountsOnHost(ChrootMounts(GentooRoot));
  }

  lemma HostSteps(plan: seq<Argv>)
    requires forall k :: 0 <= k < |plan| ==> HostCommand(plan[k])
    ensures AllOnHost(DiskSteps(plan))
  {
    forall k | 0 <= k < |plan|
      ensures OnHost(DiskSteps(plan)[k])
    {
      NotChroot(plan[k][0]);
    }
  }

  lemma NotChroot(tool: string)
    requires tool in HostTools
    ensures tool != "chroot"
  {
    assert "chroot"[0] == 'c' && "chroot"[1] == 'h';
  }

  lemma MountsOnHost(cmds: seq<Argv>)
    requires forall k :: 0 <= k < |cmds| ==> |cmds[k]| > 0 && cmds[k][0] == "mount"
    ensures AllOnHost(DiskSteps(cmds))
  {
  }

  /** `configure_base_system` mounts on the host and then works inside the new system. */
  lemma BaseSystemInTarget(c: InstallConfig)
    ensures |PlanBaseSystem(c)| >= 7
    ensures PlanBaseSystem(c)[..7] == DiskSteps(ChrootMounts(GentooRoot))
    ensures AllInTarget(PlanBaseSystem(c)[7..])
  {
    var mounts := DiskSteps(ChrootMounts(GentooRoot));
    var configure := [ Chroot(["locale-gen"], Fatal),
                       Chroot(["emerge", "--config", "sys-libs/timezone-data"], BestEffort),
                       Chroot(["emerge", "--sync"], BestEffort),
                       Chroot(["emerge", "--noreplace", "app-portage/cpuid2cpuflags"], BestEffort) ];
    var kernel := PlanKernel(c.kernel);
    assert PlanBaseSystem(c) == mounts + (configure + kernel);
    ConfigureInTarget();
    KernelInTarget(c.kernel);
    InTargetAppend(configure, kernel);
  }

  lemma ConfigureInTarget()
    ensures AllInTarget([ Chroot(["locale-gen"], Fatal),
                          Chroot(["emerge", "--config", "sys-libs/timezone-data"], BestEffort),
                          Chroot(["emerge", "--sync"], BestEffort),
                          Chroot(["emerge", "--noreplace", "app-portage/cpuid2cpuflags"], BestEffort) ])
  {
    ChrootInTarget(["locale-gen"], Fatal);
    ChrootInTarget(["emerge", "--config", "sys-libs/timezone-data"], BestEffort);
    ChrootInTarget(["emerge", "--sync"], BestEffort);
    ChrootInTarget(["emerge", "--noreplace", "app-portage/cpuid2cpuflags"], BestEffort);
  }

  lemma KernelInTarget(kernel: string)
    ensures AllInTarget(PlanKernel(kernel))
  {
    ChrootInTarget(["emerge", "--quiet-build=n", "sys-kernel/linux-firmware"], BestEffort);
    ChrootInTarget(["emerge", "--quiet-build=n", "sys-kernel/gentoo-kernel-bin"], Fatal);
    ChrootInTarget(["emerge", "sys-kernel/gentoo-sources", "sys-kernel/genkernel"], Fatal);
    ChrootInTarget(["genkernel", "all"], Fatal);
    ChrootInTarget(["emerge", "sys-kernel/gentoo-sources"], Fatal);
  }

  lemma BootloaderInTarget(c: InstallConfig)
    ensures AllInTarget(PlanBootloader(c).steps)
  {
    ChrootInTarget(["bootctl", "--path=/boot", "install"], Fatal);
    ChrootInTarget(["emerge", "sys-boot/grub"], Fatal);
    ChrootInTarget(["grub-mkconfig", "-o", "/boot/grub/grub.cfg"], Fatal);
    ChrootInTarget(["grub-install", "--target=x86_64-efi", "--efi-directory=/boot", "--bootloader-id=Gentoo"], Fatal);
    if c.targetDisk.Some? {
      ChrootInTarget(["grub-install", c.targetDisk.value], Fatal);
    }
  }

  lemma DesktopInTarget(c: InstallConfig)
    ensures AllInTarget(PlanDesktop(c))
  {
    if c.desktopProfile.Some? && c.desktopProfile.value in Profiles {
      var p := Profiles[c.desktopProfile.value];
      var emerge := if p.packages != [] then [Chroot(["emerge", "--quiet-build=n"] + p.packages, Fatal)] else [];
      var e := EnableAll(p.services);
      ChrootInTarget(["emerge", "--quiet-build=n"] + p.packages, Fatal);
      forall i | 0 <= i < |e|
        ensures InTarget(e[i])
      {
        ChrootInTarget(["systemctl", "enable", p.services[i]], Fatal);
      }
      InTargetAppend(emerge, e);
    }
  }

  lemma FinalizeInTarget(c: InstallConfig)
    ensures AllInTarget(PlanFinalize(c))
  {
    var root := PasswordSteps("root", c.rootPassword);
    var user := UserSteps(c.username, c.userPassword);
    var sudo := if c.userIsSudoer then [Chroot(["emerge", "--noreplace", "sudo"], Fatal)] else [];
    var network := NetworkSteps(c.networkMode);
    if Truthy(c.username) {
      ChrootInTarget(["useradd", "-m", "-G", "wheel,audio,video", "-s", "/bin/bash", c.username.value], Fatal);
      InTargetAppend(user[..1], PasswordSteps(c.username.value, c.userPassword));
      assert user == user[..1] + PasswordSteps(c.username.value, c.userPassword);
    }
    ChrootInTarget(["emerge", "--noreplace", "sudo"], Fatal);
    ChrootInTarget(["emerge", "--quiet-build=n", "net-misc/networkmanager"], Fatal);
    ChrootInTarget(["emerge", "--quiet-build=n", "net-misc/networkmanager", "net-wireless/iwd"], Fatal);
    ChrootInTarget(["systemctl", "enable", "NetworkManager"], Fatal);
    ChrootInTarget(["systemctl", "enable", "iwd"], Fatal);
    ChrootInTarget(["systemctl", "enable", "systemd-timesyncd"], Fatal);
    InTargetAppend(sudo, network);
    InTargetAppend(sudo + network, [TimeSync]);
    InTargetAppend(root, user);
    InTargetAppend(root + user, ServiceSteps(c));
  }

  /** `run_install` runs the disk commands and then the seven chroot mounts on the host,
      and everything after them (every `chroot` command and every password) inside
      `/mnt/gentoo`. */
  lemma InstallOrder(c: InstallConfig, confirmWipe: bool, confirmFormat: bool)
    ensures var p := PlanInstall(c, confirmWipe, confirmFormat);
      var disks := PlanDisks(c, confirmWipe, confirmFormat);
      disks.Success? ==>
        var n := |disks.value|;
        && n + 7 <= |p.steps|
        && p.steps[..n] == DiskSteps(disks.value)
        && p.steps[n..n + 7] == DiskSteps(ChrootMounts(GentooRoot))
        && AllOnHost(p.steps[..n + 7])
        && AllInTarget(p.steps[n + 7..])
  {
    DisksOnHost(c, confirmWipe, confirmFormat);
    BaseSystemInTarget(c);
    BootloaderInTarget(c);
    DesktopInTarget(c);
    FinalizeInTarget(c);
    AssembleOrder(PlanDisks(c, confirmWipe, confirmFormat), PlanBaseSystem(c), PlanBootloader(c), PlanDesktop(c), PlanFinalize(c));
  }

  lemma AssembleOrder(disks: Result<seq<Argv>, DiskError>, base: seq<Step>, boot: Plan, desktop: seq<Step>, finalize: seq<Step>)
    requires disks.Success? ==> AllOnHost(DiskSteps(disks.value))
    requires |base| >= 7 && AllOnHost(base[..7]) && AllInTarget(base[7..])
    requires AllInTarget(boot.steps) && AllInTarget(desktop) && AllInTarget(finalize)
    ensures var p := Assemble(disks, base, boot, desktop, finalize);
      disks.Success? ==>
        var n := |disks.value|;
        && n + 7 <= |p.steps|
        && p.steps[..n] == DiskSteps(disks.value)
        && p.steps[n..n + 7] == base[..7]
        && AllOnHost(p.steps[..n + 7])
        && AllInTarget(p.steps[n + 7..])
  {
    if disks.Success? {
      var x := DiskSteps(disks.value);
      var rest := if boot.stop.Some? then boot.steps else boot.steps + desktop + finalize;
      if boot.stop.None? {
        InTargetAppend(boot.steps, desktop);
        InTargetAppend(boot.steps + desktop, finalize);
      }
      InTargetAppend(base[7..], rest);
      OnHostAppend(x, base[..7]);
      var p := Assemble(disks, base, boot, desktop, finalize);
      assert base == base[..7] + base[7..];
      assert p.steps == (x + base[..7]) + (base[7..] + rest);
    }
  }
}
