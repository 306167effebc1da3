/** Disk preparation (`part_name`, `prepare_disks`): the commands that partition, format
    and mount the target before stage3 is unpacked. The answers to the two interactive
    questions are parameters. */
module Disks {
  import opened Wrappers
  import opened Text
  import opened Config
  import opened Executor

  /** Where the boot partition is mounted: `os.path.join(GENTOO_ROOT, "boot")`. */
  const BootDir := "/mnt/gentoo/boot"

  /** Devices whose partitions are named with a `p` before the number. */
  predicate NeedsSeparator(disk: string) {
    StartsWith(disk, "/dev/nvme") || StartsWith(disk, "/dev/mmcblk")
  }

  /** `part_name`: the device name of partition `n` of `disk`. */
  function PartName(disk: string, n: nat): (r: string)
    ensures StartsWith(r, disk)
  {
    if NeedsSeparator(disk) then disk + "p" + NatToString(n) else disk + NatToString(n)
  }

  /** The part after the disk name is `p<n>` exactly for nvme and mmcblk devices, and
      `<n>` otherwise. */
  lemma PartNameSuffix(disk: string, n: nat)
    ensures NeedsSeparator(disk) ==> PartName(disk, n)[|disk|..] == "p" + NatToString(n)
    ensures !NeedsSeparator(disk) ==> PartName(disk, n)[|disk|..] == NatToString(n)
  {
  }

  /** Different partition numbers on one disk give different names. */
  lemma PartNameInjective(disk: string, m: nat, n: nat)
    requires PartName(disk, m) == PartName(disk, n)
    ensures m == n
  {
    PartNameSuffix(disk, m);
    PartNameSuffix(disk, n);
    if NeedsSeparator(disk) {
      assert ("p" + NatToString(m))[1..] == NatToString(m);
      assert ("p" + NatToString(n))[1..] == NatToString(n);
    }
    NatToStringInjective(m, n);
  }

  lemma PartNameExamples()
    ensures PartName("/dev/sda", 1) == "/dev/sda1"
    ensures PartName("/dev/nvme0n1", 2) == "/dev/nvme0n1p2"
  {
    assert NatToString(1) == "1";
    assert NatToString(2) == "2";
    assert !NeedsSeparator("/dev/sda") by {
      assert "/dev/sda"[5] != "/dev/nvme"[5];
      assert "/dev/sda"[5] != "/dev/mmcblk"[5];
    }
    assert NeedsSeparator("/dev/nvme0n1") by {
      assert "/dev/nvme0n1"[..9] == "/dev/nvme";
    }
  }

  /** Why disk preparation stops the installer (`sys.exit(1)`, or the exception raised
      by `part_name` on a missing disk). */
  datatype DiskError = MissingRootPartition | MissingTargetDisk

  /** The `mkfs` command for one `format_partitions` entry: only `ext4` and `vfat` are
      formatted; any other filesystem name is passed over. */
  function MkfsFor(path: string, fs: string): Option<Argv> {
    if fs == "ext4" then Some(["mkfs.ext4", path])
    else if fs == "vfat" then Some(["mkfs.vfat", "-F32", path])
    else None
  }

  /** The `mkfs` commands for the marked partitions, in the dictionary's order. */
  function FormatCommands(entries: seq<(string, string)>): (cmds: seq<Argv>)
    ensures |cmds| <= |entries|
  {
    if entries == [] then []
    else
      match MkfsFor(entries[0].0, entries[0].1)
      case None => FormatCommands(entries[1..])
      case Some(cmd) => [cmd] + FormatCommands(entries[1..])
  }

  /** Whether an argument vector formats `dev`. */
  predicate IsMkfsOf(cmd: Argv, dev: string) {
    cmd == ["mkfs.ext4", dev] || cmd == ["mkfs.vfat", "-F32", dev]
  }

  /** A command formats a partition exactly when the partition is marked `ext4` or `vfat`,
      with the matching tool. */
  lemma {:induction false} FormatCommandsExact(entries: seq<(string, string)>, cmd: Argv)
    ensures cmd in FormatCommands(entries) <==>
      exists e :: e in entries && MkfsFor(e.0, e.1) == Some(cmd)
  {
    if entries != [] {
      FormatCommandsExact(entries[1..], cmd);
      if cmd in FormatCommands(entries[1..]) {
        var e :| e in entries[1..] && MkfsFor(e.0, e.1) == Some(cmd);
        assert e in entries;
      }
      forall e | e in entries && MkfsFor(e.0, e.1) == Some(cmd)
        ensures cmd in FormatCommands(entries)
      {
        if e != entries[0] {
          assert e in entries[1..];
        }
      }
    }
  }

  /** Every format command is a `mkfs` of a partition marked in the list. */
  lemma {:induction false} FormatCommandsAreMkfs(entries: seq<(string, string)>)
    ensures forall cmd :: cmd in FormatCommands(entries) ==>
      exists e :: e in entries && IsMkfsOf(cmd, e.0)
  {
    forall cmd | cmd in FormatCommands(entries)
      ensures exists e :: e in entries && IsMkfsOf(cmd, e.0)
    {
      FormatCommandsExact(entries, cmd);
      var e :| e in entries && MkfsFor(e.0, e.1) == Some(cmd);
      assert IsMkfsOf(cmd, e.0);
    }
  }

  /** The manual-mode mount commands: root first, then the boot partition if one is set. */
  function ManualMounts(root: string, boot: Option<string>): (cmds: seq<Argv>)
    ensures |cmds| == if Truthy(boot) then 4 else 2
  {
    [["mkdir", "-p", GentooRoot], ["mount", root, GentooRoot]]
      + (if Truthy(boot) then [["mkdir", "-p", BootDir], ["mount", boot.value, BootDir]] else [])
  }

  /** Auto mode on UEFI: GPT, a 512 MiB EFI system partition and an ext4 root. */
  function UefiPlan(disk: string): (cmds: seq<Argv>)
    ensures |cmds| == 10
  {
    var boot, root := PartName(disk, 1), PartName(disk, 2);
    [ ["parted", disk, "--script", "mklabel", "gpt"],
      ["parted", disk, "--script", "mkpart", "ESP", "fat32", "1MiB", "513MiB"],
      ["parted", disk, "--script", "set", "1", "boot", "on"],
      ["parted", disk, "--script", "mkpart", "primary", "ext4", "513MiB", "100%"],
      ["mkfs.vfat", "-F32", boot],
      ["mkfs.ext4", root],
      ["mkdir", "-p", GentooRoot],
      ["mount", root, GentooRoot],
      ["mkdir", "-p", BootDir],
      ["mount", boot, BootDir] ]
  }

  /** Auto mode on BIOS: an msdos label and one ext4 partition over the whole disk. */
  function BiosPlan(disk: string): (cmds: seq<Argv>)
    ensures |cmds| == 5
  {
    var root := PartName(disk, 1);
    [ ["parted", disk, "--script", "mklabel", "msdos"],
      ["parted", disk, "--script", "mkpart", "primary", "ext4", "1MiB", "100%"],
      ["mkfs.ext4", root],
      ["mkdir", "-p", GentooRoot],
      ["mount", root, GentooRoot] ]
  }

  /** `prepare_disks`. `confirmFormat` answers the question asked in manual mode when
      partitions are marked for formatting; `confirmWipe` answers the question asked in
      every other mode before the disk is wiped. `root_fs` only triggers a warning: the
      root is always ext4. */
  function PlanDisks(c: InstallConfig, confirmWipe: bool, confirmFormat: bool): (r: Result<seq<Argv>, DiskError>)
    ensures r.Failure? <==>
      if c.diskMode == "manual" then !Truthy(c.rootPartition) else confirmWipe && c.targetDisk.None?
    ensures r.Failure? ==> (c.diskMode == "manual" <==> r.error == MissingRootPartition)
    ensures c.diskMode != "manual" && !confirmWipe ==> r == Success([])
    ensures c.diskMode != "manual" && r.Success? && confirmWipe ==>
      |r.value| == if c.useUefi == Some(true) then 10 else 5
  {
    if c.diskMode == "manual" then
      if !Truthy(c.rootPartition) then Failure(MissingRootPartition)
      else
        var mkfs := if c.formatPartitions != [] && confirmFormat then FormatCommands(c.formatPartitions) else [];
        Success(mkfs + ManualMounts(c.rootPartition.value, c.bootPartition))
    else if !confirmWipe then Success([])
    else if c.targetDisk.None? then Failure(MissingTargetDisk)
    else if c.useUefi == Some(true) then Success(UefiPlan(c.targetDisk.value))
    else Success(BiosPlan(c.targetDisk.value))
  }

  /** The plan as installer steps: every disk command is fatal when it fails. */
  function DiskSteps(plan: seq<Argv>): (steps: seq<Step>)
    ensures |steps| == |plan|
    ensures forall i :: 0 <= i < |plan| ==> steps[i] == Run(plan[i], Fatal)
  {
    if plan == [] then [] else [Run(plan[0], Fatal)] + DiskSteps(plan[1..])
  }

  predicate IsMount(cmd: Argv) {
    |cmd| == 3 && cmd[0] == "mount"
  }

  predicate IsParted(cmd: Argv) {
    |cmd| > 0 && cmd[0] == "parted"
  }

  /** A `parted ... mkpart` command on `disk`. */
  predicate IsMkpart(cmd: Argv, disk: string) {
    |cmd| == 8 && cmd[0] == "parted" && cmd[1] == disk && cmd[3] == "mkpart"
  }

  /** Every mount point is created before something is mounted on it. */
  predicate MountPointsCreated(plan: seq<Argv>) {
    forall j :: 0 <= j < |plan| && IsMount(plan[j]) ==>
      exists i :: 0 <= i < j && plan[i] == ["mkdir", "-p", plan[j][2]]
  }

  /** The boot partition is only mounted once the root is mounted. */
  predicate RootMountedFirst(plan: seq<Argv>) {
    forall j :: 0 <= j < |plan| && IsMount(plan[j]) && plan[j][2] == BootDir ==>
      exists i :: 0 <= i < j && IsMount(plan[i]) && plan[i][2] == GentooRoot
  }

  /** Every mounted device was formatted earlier in the plan. */
  predicate MountsFormatted(plan: seq<Argv>) {
    forall j :: 0 <= j < |plan| && IsMount(plan[j]) ==>
      exists i :: 0 <= i < j && IsMkfsOf(plan[i], plan[j][1])
  }

  /** The mount points of the plan, in order. */
  function MountTargets(plan: seq<Argv>): (targets: seq<string>)
    ensures |targets| <= |plan|
  {
    if plan == [] then []
    else if IsMount(plan[0]) then [plan[0][2]] + MountTargets(plan[1..])
    else MountTargets(plan[1..])
  }

  lemma ManualMountsWellOrdered(root: string, boot: Option<string>)
    ensures MountPointsCreated(ManualMounts(root, boot))
    ensures RootMountedFirst(ManualMounts(root, boot))
    ensures MountTargets(ManualMounts(root, boot)) == if Truthy(boot) then [GentooRoot, BootDir] else [GentooRoot]
  {
    var cmds := ManualMounts(root, boot);
    assert cmds[0] == ["mkdir", "-p", GentooRoot];
    assert IsMount(cmds[1]);
    assert !IsMount(cmds[0]);
    if Truthy(boot) {
      assert cmds[2] == ["mkdir", "-p", BootDir];
      assert !IsMount(cmds[2]);
      assert MountTargets(cmds[3..]) == [BootDir] by {
        assert cmds[3..][1..] == [];
      }
      assert MountTargets(cmds[2..]) == [BootDir] by {
        assert cmds[2..][1..] == cmds[3..];
      }
      assert MountTargets(cmds[1..]) == [GentooRoot, BootDir] by {
        assert cmds[1..][1..] == cmds[2..];
      }
    } else {
      assert MountTargets(cmds[1..]) == [GentooRoot] by {
        assert cmds[1..][1..] == [];
      }
    }
  }

  /** Commands that mount nothing, put before a plan, keep its mount order. */
  lemma {:induction false} PrefixKeepsMountOrder(pre: seq<Argv>, post: seq<Argv>)
    requires forall k :: 0 <= k < |pre| ==> !IsMount(pre[k])
    requires MountPointsCreated(post) && RootMountedFirst(post)
    ensures MountTargets(pre + post) == MountTargets(post)
    ensures MountPointsCreated(pre + post) && RootMountedFirst(pre + post)
  {
    PrefixKeepsMountTargets(pre, post);
    var plan := pre + post;
    forall j | 0 <= j < |plan| && IsMount(plan[j])
      ensures exists i :: 0 <= i < j && plan[i] == ["mkdir", "-p", plan[j][2]]
    {
      assert plan[j] == post[j - |pre|];
      var i :| 0 <= i < j - |pre| && post[i] == ["mkdir", "-p", post[j - |pre|][2]];
      assert plan[|pre| + i] == post[i];
    }
    forall j | 0 <= j < |plan| && IsMount(plan[j]) && plan[j][2] == BootDir
      ensures exists i :: 0 <= i < j && IsMount(plan[i]) && plan[i][2] == GentooRoot
    {
      assert plan[j] == post[j - |pre|];
      var i :| 0 <= i < j - |pre| && IsMount(post[i]) && post[i][2] == GentooRoot;
      assert plan[|pre| + i] == post[i];
    }
  }

  lemma {:induction false} PrefixKeepsMountTargets(pre: seq<Argv>, post: seq<Argv>)
    requires forall k :: 0 <= k < |pre| ==> !IsMount(pre[k])
    ensures MountTargets(pre + post) == MountTargets(post)
  {
    if pre == [] {
      assert pre + post == post;
    } else {
      assert (pre + post)[0] == pre[0];
      assert (pre + post)[1..] == pre[1..] + post;
      PrefixKeepsMountTargets(pre[1..], post);
    }
  }

  /** Format commands are `mkfs` invocations only. */
  lemma {:induction false} FormatCommandsOnlyMkfs(entries: seq<(string, string)>)
    ensures forall k :: 0 <= k < |FormatCommands(entries)| ==>
      |FormatCommands(entries)[k]| >= 2 && FormatCommands(entries)[k][0] in {"mkfs.ext4", "mkfs.vfat"}
  {
    if entries != [] {
      FormatCommandsOnlyMkfs(entries[1..]);
    }
  }

  /** The manual-mode plan when a root partition is set. */
  function ManualPlan(c: InstallConfig, confirmFormat: bool): seq<Argv>
    requires Truthy(c.rootPartition)
  {
    var mkfs := if c.formatPartitions != [] && confirmFormat then FormatCommands(c.formatPartitions) else [];
    mkfs + ManualMounts(c.rootPartition.value, c.bootPartition)
  }

  /** Manual mode: the root partition is required, and the plan is `ManualPlan`. */
  lemma ManualPlanChosen(c: InstallConfig, confirmWipe: bool, confirmFormat: bool)
    requires c.diskMode == "manual"
    ensures !Truthy(c.rootPartition) <==> PlanDisks(c, confirmWipe, confirmFormat) == Failure(MissingRootPartition)
    ensures Truthy(c.rootPartition) ==> PlanDisks(c, confirmWipe, confirmFormat) == Success(ManualPlan(c, confirmFormat))
  {
  }

  /** In every other mode a declined wipe does nothing, a confirmed wipe without a target
      disk is an error, and otherwise the UEFI layout is used exactly when `use_uefi` is
      true and the BIOS layout in every other case. */
  lemma AutoPlanChosen(c: InstallConfig, confirmWipe: bool, confirmFormat: bool)
    requires c.diskMode != "manual"
    ensures !confirmWipe ==> PlanDisks(c, confirmWipe, confirmFormat) == Success([])
    ensures confirmWipe && c.targetDisk.None? ==> PlanDisks(c, confirmWipe, confirmFormat) == Failure(MissingTargetDisk)
    ensures confirmWipe && c.targetDisk.Some? ==>
      PlanDisks(c, confirmWipe, confirmFormat) ==
        Success(if c.useUefi == Some(true) then UefiPlan(c.targetDisk.value) else BiosPlan(c.targetDisk.value))
  {
  }

  /** The tools disk preparation runs on the host. */
  const HostTools := {"parted", "mkfs.ext4", "mkfs.vfat", "mkdir", "mount"}

  /** A command run on the host with one of `HostTools`. */
  predicate HostCommand(cmd: Argv) {
    |cmd| > 0 && cmd[0] in HostTools
  }

  /** Disk preparation runs nothing inside the chroot: every command of every plan is
      `parted`, `mkfs.ext4`, `mkfs.vfat`, `mkdir` or `mount`. */
  lemma PlanDisksOnHost(c: InstallConfig, confirmWipe: bool, confirmFormat: bool)
    ensures PlanDisks(c, confirmWipe, confirmFormat).Success? ==>
      forall k :: 0 <= k < |PlanDisks(c, confirmWipe, confirmFormat).value| ==>
        HostCommand(PlanDisks(c, confirmWipe, confirmFormat).value[k])
  {
    if c.diskMode == "manual" && Truthy(c.rootPartition) {
      var mkfs := if c.formatPartitions != [] && confirmFormat then FormatCommands(c.formatPartitions) else [];
      var mounts := ManualMounts(c.rootPartition.value, c.bootPartition);
      FormatCommandsOnlyMkfs(c.formatPartitions);
      assert forall k :: 0 <= k < |mkfs| ==> HostCommand(mkfs[k]);
      assert forall k :: 0 <= k < |mounts| ==> HostCommand(mounts[k]);
      HostAppend(mkfs, mounts);
    }
  }

  lemma HostAppend(a: seq<Argv>, b: seq<Argv>)
    requires forall k :: 0 <= k < |a| ==> HostCommand(a[k])
    requires forall k :: 0 <= k < |b| ==> HostCommand(b[k])
    ensures forall k :: 0 <= k < |a + b| ==> HostCommand((a + b)[k])
  {
    forall k | 0 <= k < |a + b|
      ensures HostCommand((a + b)[k])
    {
      if k >= |a| {
        assert (a + b)[k] == b[k - |a|];
      }
    }
  }

  /** In manual mode the partition table is never touched, root is mounted before boot,
      and boot is mounted exactly when a boot partition is set. */
  lemma ManualPlanMounts(c: InstallConfig, confirmFormat: bool)
    requires Truthy(c.rootPartition)
    ensures var plan := ManualPlan(c, confirmFormat);
      && (forall k :: 0 <= k < |plan| ==> !IsParted(plan[k]))
      && MountPointsCreated(plan) && RootMountedFirst(plan)
      && MountTargets(plan) == (if Truthy(c.bootPartition) then [GentooRoot, BootDir] else [GentooRoot])
  {
    var mkfs := if c.formatPartitions != [] && confirmFormat then FormatCommands(c.formatPartitions) else [];
    var mounts := ManualMounts(c.rootPartition.value, c.bootPartition);
    FormatCommandsOnlyMkfs(c.formatPartitions);
    ManualMountsWellOrdered(c.rootPartition.value, c.bootPartition);
    PrefixKeepsMountOrder(mkfs, mounts);
    var plan := mkfs + mounts;
    forall k | 0 <= k < |plan|
      ensures !IsParted(plan[k])
    {
      if k >= |mkfs| {
        assert plan[k] == mounts[k - |mkfs|];
      }
    }
  }

  /** In manual mode a partition is formatted only after the question is answered yes, only
      when it is marked, and every partition marked `ext4` or `vfat` is then formatted. */
  lemma ManualPlanFormats(c: InstallConfig, confirmFormat: bool, dev: string)
    requires Truthy(c.rootPartition)
    ensures (exists k :: 0 <= k < |ManualPlan(c, confirmFormat)| && IsMkfsOf(ManualPlan(c, confirmFormat)[k], dev)) <==>
      confirmFormat && exists e :: e in c.formatPartitions && e.0 == dev && e.1 in {"ext4", "vfat"}
  {
    var mkfs := if c.formatPartitions != [] && confirmFormat then FormatCommands(c.formatPartitions) else [];
    var mounts := ManualMounts(c.rootPartition.value, c.bootPartition);
    var plan := mkfs + mounts;
    assert ManualPlan(c, confirmFormat) == plan;
    forall k | 0 <= k < |plan| && IsMkfsOf(plan[k], dev)
      ensures confirmFormat && exists e :: e in c.formatPartitions && e.0 == dev && e.1 in {"ext4", "vfat"}
    {
      assert k < |mkfs|;
      assert plan[k] == mkfs[k];
      FormatCommandsExact(c.formatPartitions, plan[k]);
      var e :| e in c.formatPartitions && MkfsFor(e.0, e.1) == Some(plan[k]);
      assert e.0 == dev;
    }
    if confirmFormat && exists e :: e in c.formatPartitions && e.0 == dev && e.1 in {"ext4", "vfat"} {
      var e :| e in c.formatPartitions && e.0 == dev && e.1 in {"ext4", "vfat"};
      var cmd := MkfsFor(e.0, e.1).value;
      FormatCommandsExact(c.formatPartitions, cmd);
      var k :| 0 <= k < |mkfs| && mkfs[k] == cmd;
      assert plan[k] == cmd && IsMkfsOf(cmd, dev);
    }
  }

  /** The UEFI partition table: GPT label first, exactly two partitions, the ESP from 1 MiB to
      513 MiB flagged bootable, the root from 513 MiB to the end of the disk. */
  lemma UefiPartitions(disk: string)
    ensures var plan := UefiPlan(disk);
      && plan[0] == ["parted", disk, "--script", "mklabel", "gpt"]
      && (set k | 0 <= k < |plan| && IsMkpart(plan[k], disk)) == {1, 3}
      && plan[1][6..] == ["1MiB", "513MiB"] && plan[3][6..] == ["513MiB", "100%"]
      && plan[2] == ["parted", disk, "--script", "set", "1", "boot", "on"]
  {
    var plan := UefiPlan(disk);
    forall k | 0 <= k < |plan| && k != 1 && k != 3
      ensures !IsMkpart(plan[k], disk)
    {
      if k == 0 || k == 2 {
        assert plan[k][3] != "mkpart";
      } else {
        assert plan[k][0] != "parted";
      }
    }
  }

  /** The UEFI file systems: partition 1 is FAT32, partition 2 is ext4, the two are distinct,
      and each is formatted before it is mounted, root before boot. */
  lemma UefiMounts(disk: string)
    ensures var plan := UefiPlan(disk);
      && plan[4] == ["mkfs.vfat", "-F32", PartName(disk, 1)]
      && plan[5] == ["mkfs.ext4", PartName(disk, 2)]
      && PartName(disk, 1) != PartName(disk, 2)
      && plan[7] == ["mount", PartName(disk, 2), GentooRoot]
      && plan[9] == ["mount", PartName(disk, 1), BootDir]
      && MountsFormatted(plan) && MountPointsCreated(plan) && RootMountedFirst(plan)
  {
    var plan := UefiPlan(disk);
    if PartName(disk, 1) == PartName(disk, 2) {
      PartNameInjective(disk, 1, 2);
    }
    forall j | 0 <= j < |plan| && IsMount(plan[j])
      ensures j == 7 || j == 9
    {
      assert plan[j][0] == "mount";
    }
    assert IsMkfsOf(plan[5], plan[7][1]) && IsMkfsOf(plan[4], plan[9][1]);
    assert plan[6] == ["mkdir", "-p", plan[7][2]] && plan[8] == ["mkdir", "-p", plan[9][2]];
  }

  /** The BIOS layout: msdos label first and one partition over the whole disk, formatted
      ext4 before it is mounted as root. */
  lemma BiosLayout(disk: string)
    ensures var plan := BiosPlan(disk);
      && plan[0] == ["parted", disk, "--script", "mklabel", "msdos"]
      && (set k | 0 <= k < |plan| && IsMkpart(plan[k], disk)) == {1}
      && plan[1][6..] == ["1MiB", "100%"]
      && plan[2] == ["mkfs.ext4", PartName(disk, 1)]
      && plan[4] == ["mount", PartName(disk, 1), GentooRoot]
      && MountsFormatted(plan) && MountPointsCreated(plan) && RootMountedFirst(plan)
  {
    var plan := BiosPlan(disk);
    forall k | 0 <= k < |plan| && k != 1
      ensures !IsMkpart(plan[k], disk)
    {
      assert |plan[k]| != 8;
    }
    forall j | 0 <= j < |plan| && IsMount(plan[j])
      ensures j == 4
    {
      assert plan[j][0] == "mount";
    }
    assert IsMkfsOf(plan[2], plan[4][1]);
    assert plan[3] == ["mkdir", "-p", plan[4][2]];
  }
}
