# Gentoo installer planning core, modelled in Dafny

The installer (`gentoo_install.py`) collects a `GentooInstallConfig` and then runs a fixed
pipeline of external commands. These partition and mount the disk, configure the base system
inside a chroot, install a kernel, a bootloader and a desktop, and finalise the accounts and
services. Every side effect is an external command, so each stage is modelled as a pure
function. It maps the configuration, plus the operator's yes/no answers and any captured tool
output, to the ordered list of argument vectors the stage runs.

An executor model (`Executor.Execute`) then plays such a list in a dry run or a live run. It
follows `run_cmd` and `_set_password`:
- every command is logged as `[CMD]: …` or `[CMD] (dry-run): …`;
- a dry run starts nothing;
- a password change is logged as a fixed text, and the password is passed only on `chpasswd`'s
  standard input.

Modules:
- `Wrappers`: `Option` and `Result`.
- `Text`: the Python `str` operations the planners use:
  - `split()`, `splitlines()`, `strip()`;
  - `startswith`, `join`;
  - decimal formatting.
- `Config`: the configuration record, `is_complete`, `config_to_dict` / `config_from_dict` on a
  dictionary of typed values, and the credentials payload.
- `Executor`: argument vectors, the chroot prefix, audit lines, dry and live runs.
- `Disks`: `part_name` and `prepare_disks`. The disk plan includes auto/UEFI, auto/BIOS and
  manual modes.
- `Fstab`: the line logic of `generate_fstab`. The `findmnt` and `blkid` outputs are
  parameters.
- `Stages`: the pipeline and its stages:
  - `setup_chroot_mounts`;
  - the locale id and the commands of `configure_base_system`;
  - `install_kernel`, `install_bootloader`, `install_desktop_environment`, `finalize_install`;
  - `run_install`.
- `MakeConf`: the `make.conf` settings `configure_base_system` appends. See Findings.

## Model

| member | source | states |
|---|---|---|
| `Config.IsComplete` | gentoo_install.py:65-87 | the record is complete when every required field is truthy and `use_uefi` is merely not `None`; the disk requirement depends on `disk_mode` |
| `Config.ManualCompleteness` | gentoo_install.py:67-68 | in `manual` mode completeness ignores `target_disk` and needs a non-empty `root_partition` |
| `Config.AutoCompleteness` | gentoo_install.py:69-70 | in every other mode completeness ignores `root_partition` and needs a non-empty `target_disk` |
| `Config.UefiTriState` | gentoo_install.py:76 | `use_uefi = false` counts as set exactly like `true`; only `None` makes the record incomplete |
| `Config.FieldOf` | gentoo_install.py:109-110 | a key is accepted only if it is the name of the field it maps to |
| `Config.FieldOfName` | gentoo_install.py:109-110 | every field's own name is accepted and maps back to that field |
| `Config.NameInjective` | gentoo_install.py:109 | distinct fields have distinct dictionary keys |
| `Config.ToDict` | gentoo_install.py:90-100 | the dictionary holds a key exactly for each non-password field, and each value is that field's value |
| `Config.ToDictKeysAreFields` | gentoo_install.py:90-100 | every key `config_to_dict` writes is a field name |
| `Config.Known` | gentoo_install.py:109-110 | the filtered dictionary keeps exactly the entries whose key names a field, with their values |
| `Config.FromDict` | gentoo_install.py:103-111 | decoding fails only on a key that is present and names a field; a dictionary with no field key decodes to the defaults; `FromDictPartial`, `FromDictToDict` and `FromDictIgnoresUnknownKeys` carry the rest |
| `Config.FromDictPartial` | gentoo_install.py:103-111 | a dictionary holding any subset of the fields, each with a value of its field's type, decodes; every present field takes the given value and every absent field keeps its dataclass default |
| `Config.FromDictToDict` | gentoo_install.py:90-111 | decoding the stored form gives back the configuration with both passwords reset to `None` |
| `Config.BuildFieldsRoundTrip` | gentoo_install.py:31-40 | the schema, script, language, stage3 and build fields read back from the stored form unchanged |
| `Config.DiskFieldsRoundTrip` | gentoo_install.py:41-50 | the disk fields read back from the stored form unchanged |
| `Config.PartitionFieldsRoundTrip` | gentoo_install.py:42-46 | the target disk, the mode and the three partitions read back from the stored form unchanged |
| `Config.AccountFieldsRoundTrip` | gentoo_install.py:51-58 | the identity fields read back unchanged and the passwords, absent from the stored form, come back as `None` |
| `Config.BootFieldsRoundTrip` | gentoo_install.py:60-63 | the bootloader, kernel and network fields read back from the stored form unchanged |
| `Config.KnownToDict` | gentoo_install.py:90-111 | filtering the stored form by field name loses nothing, since every stored key is a field name |
| `Config.ToDictIgnoresSecrets` | gentoo_install.py:97-99 | the stored form is the same whatever the passwords are |
| `Config.ToDictStable` | gentoo_install.py:90-111 | storing, loading and storing again gives the same dictionary |
| `Config.FromDictIgnoresUnknownKeys` | gentoo_install.py:103-111 | adding keys that name no field changes nothing in the decoded configuration |
| `Config.CredentialsToDict` | gentoo_install.py:143-150 | the credentials payload holds at most the two password keys, each exactly when that password is not `None` |
| `Config.LoadCredentials` | gentoo_install.py:126-141 | only the two passwords can change; with neither key present the configuration is unchanged; when each present password key holds a string or `null`, loading succeeds and each password is kept if its key is absent, becomes the string if one is given, and becomes `None` for `null`; a failure names a key of the payload |
| `Config.CredentialFields` | gentoo_install.py:126-150 | each saved password reads back from the credentials payload as it was |
| `Config.SplitStorageRoundTrip` | gentoo_install.py:90-150 | loading the stored configuration and then the credentials payload restores the whole configuration, passwords included |
| `Text.Words` | gentoo_install.py:361 | `split()` yields only non-empty, whitespace-free fields |
| `Text.WordsOfJoin` | gentoo_install.py:361-373 | splitting whitespace-free fields joined by single spaces gives the same fields back |
| `Text.SplitLinesOfJoin` | gentoo_install.py:399 | reading lines written joined by `\n` with a final `\n` back with `splitlines()` gives the same lines |
| `Text.Strip` | gentoo_install.py:358 | `strip()` returns a slice of its input; everything cut off before and after the slice is whitespace, and the slice neither starts nor ends with whitespace |
| `Text.StripIdempotent` | gentoo_install.py:358 | stripping twice gives the same text as stripping once, and text without whitespace is left unchanged |
| `Text.NatToStringValue` | gentoo_install.py:269-270 | the decimal text of a number reads back as that number |
| `Text.NatToStringInjective` | gentoo_install.py:269-270 | different numbers have different decimal texts |
| `Executor.InChroot` | gentoo_install.py:293-300 | a chrooted command is `chroot`, the root, then the command itself, two words longer |
| `Executor.OutOfChrootInChroot` | gentoo_install.py:299 | the root and the command can be recovered from a chrooted argument vector |
| `Executor.InChrootOutOfChroot` | gentoo_install.py:299 | any vector that starts with `chroot` and a root is the chroot form of its tail |
| `Executor.AuditLineParts` | gentoo_install.py:276-277 | an audit line starts with `[CMD]`, ends with the payload, and carries the dry-run marker exactly in a dry run |
| `Executor.Invoke` | gentoo_install.py:273-281 | a step starts a process exactly when it logs a line; an empty password does neither |
| `Executor.Execute` | gentoo_install.py:273-281 | a run logs at most one line per step and starts at most one process per logged line |
| `Executor.DryRunExecutesNothing` | gentoo_install.py:278-279 | a dry run starts no process, never aborts, and logs exactly the preview of the steps |
| `Executor.Preview` | gentoo_install.py:273-281 | at most one line per step, each an `[CMD]` audit line; `DryRunExecutesNothing` and `PreviewMarkerOnly` pin its contents |
| `Executor.LiveRunFollowsPreview` | gentoo_install.py:273-281 | when no fatal step fails, a live run logs every line and starts every process, in order |
| `Executor.LiveRunIsPrefix` | gentoo_install.py:273-281 | a live run logs and starts a prefix of the plan, one process per line, and an abort happens only right after a failing process; `AbortsExactlyOnFatalFailure` states when it aborts |
| `Executor.AbortsExactlyOnFatalFailure` | gentoo_install.py:273-281 | a live run aborts if and only if some fatal step fails, because `check=True` raises out of the installer on the first such failure |
| `Executor.PreviewMarkerOnly` | gentoo_install.py:276-277 | the dry-run log and the live log have the same lines, differing only by the ` (dry-run)` marker |
| `Executor.AuditIgnoresPasswords` | gentoo_install.py:1813-1829 | if whether a process fails depends only on its argument vector, not on its standard input, then changing only the passwords changes neither the log, nor the outcome, nor any started argument vector |
| `Executor.SetPasswordShape` | gentoo_install.py:1813-1829 | an empty password does nothing; otherwise the log shows only `chpasswd (stdin redacted)`, and a live run starts `chroot /mnt/gentoo chpasswd` with `user:password` on its standard input |
| `Disks.PartName` | gentoo_install.py:262-270 | a partition name always starts with the disk name |
| `Disks.PartNameSuffix` | gentoo_install.py:262-270 | the suffix is `p` and the number for `/dev/nvme…` and `/dev/mmcblk…` disks, and the bare number otherwise |
| `Disks.PartNameInjective` | gentoo_install.py:262-270 | different partition numbers of one disk get different names |
| `Disks.PartNameExamples` | gentoo_install.py:262-270 | `/dev/sda` partition 1 is `/dev/sda1`, and `/dev/nvme0n1` partition 2 is `/dev/nvme0n1p2` |
| `Disks.FormatCommandsExact` | gentoo_install.py:1393-1397 | a command is among the format commands exactly when some marked partition is `ext4` or `vfat` and that is its `mkfs` command |
| `Disks.FormatCommandsAreMkfs` | gentoo_install.py:1393-1397 | every format command formats a partition that was marked |
| `Disks.FormatCommandsOnlyMkfs` | gentoo_install.py:1393-1397 | format commands run only `mkfs.ext4` or `mkfs.vfat` |
| `Disks.PlanDisks` | gentoo_install.py:1367-1483 | the plan fails exactly without a root partition in manual mode, or without a target disk after a confirmed wipe; a declined wipe plans nothing; a confirmed wipe plans 10 commands under UEFI and 5 otherwise |
| `Disks.DiskSteps` | gentoo_install.py:1482-1483 | every disk command is run through `run_cmd`, and its failure stops the installer |
| `Disks.ManualMountsWellOrdered` | gentoo_install.py:1400-1410 | every manual mount point is created before its mount, root is mounted before boot, and boot is mounted exactly when `boot_partition` is set |
| `Disks.PrefixKeepsMountOrder` | gentoo_install.py:1386-1412 | putting commands that mount nothing in front of a well-ordered mount sequence keeps it well ordered, with the same mount targets |
| `Disks.AutoPlanChosen` | gentoo_install.py:1415-1483 | outside manual mode a declined wipe does nothing, a confirmed wipe without a target disk is an error, and otherwise the UEFI layout is used exactly when `use_uefi` is true and the BIOS layout otherwise |
| `Disks.ManualPlanChosen` | gentoo_install.py:1380-1384 | in manual mode a missing root partition is fatal, and otherwise the manual plan is chosen |
| `Disks.ManualPlanMounts` | gentoo_install.py:1380-1413 | the manual plan never runs `parted`, creates mount points first, mounts root before boot, and mounts boot exactly when it is set |
| `Disks.ManualPlanFormats` | gentoo_install.py:1386-1397 | a partition is formatted in manual mode exactly when formatting is confirmed and it is marked `ext4` or `vfat` |
| `Disks.UefiPartitions` | gentoo_install.py:1423-1450 | UEFI: `mklabel gpt` comes first, exactly two `mkpart` commands are issued, the ESP spans `1MiB`–`513MiB`, the root spans `513MiB`–`100%`, and partition 1 gets the boot flag |
| `Disks.UefiMounts` | gentoo_install.py:1423-1460 | UEFI: `mkfs.vfat -F32` runs on partition 1 and `mkfs.ext4` on partition 2; root is mounted at `/mnt/gentoo` before boot is mounted at `/mnt/gentoo/boot`; every mounted device was formatted first |
| `Disks.BiosLayout` | gentoo_install.py:1461-1480 | BIOS: `mklabel msdos` and a single partition spanning `1MiB`–`100%`, formatted ext4 and mounted at `/mnt/gentoo` |
| `Fstab.MountPoint` | gentoo_install.py:370-371 | the mount point of the root itself is `/`; for a target below the root it is the part after the root, so root followed by the mount point is the target |
| `Fstab.MountPointExamples` | gentoo_install.py:370-373 | `/mnt/gentoo` becomes `/` with pass 1, and `/mnt/gentoo/boot` becomes `/boot` with pass 2 |
| `Fstab.RowDropped` | gentoo_install.py:357-369 | a row that does not split into four fields is dropped, and so is one whose target is not under the root |
| `Fstab.RowKept` | gentoo_install.py:361-374 | a four-field row under the root is always kept, because `split()` never yields an empty uuid or type |
| `Fstab.EntryFields` | gentoo_install.py:370-373 | a kept row gives six fields: `UUID=<uuid>`, the mount point, the type, `defaults`, `0`, and a pass number that is `1` exactly for `/` |
| `Fstab.MountEntriesExact` | gentoo_install.py:357-374 | a line is a mount entry exactly when some `findmnt` row yields it |
| `Fstab.FstabLines` | gentoo_install.py:333-391 | at most one line per `findmnt` line plus one, its own contract gives only this bound; `MountEntriesExact` and `SwapLast` state which lines appear and in what order |
| `Fstab.SwapLast` | gentoo_install.py:378-391 | the swap line is appended last, exactly when a swap partition is set and `blkid` reported a non-empty uuid |
| `Fstab.EntriesHaveNoLineBreak` | gentoo_install.py:373 | no mount entry contains a line break |
| `Fstab.ContentRoundTrip` | gentoo_install.py:395-409 | if the stripped `blkid` output holds no line break, then nothing is written when there are no lines, and otherwise the written file reads back as exactly the lines |
| `Stages.PathJoin` | gentoo_install.py:323-329 | an absolute second part replaces the first and an empty first part is dropped; otherwise the two parts are joined by exactly one `/`, and none is added when the first part already ends in `/` |
| `Stages.PseudoMountsPaired` | gentoo_install.py:321-329 | `proc` is mounted first; each `--rbind` of `/sys`, `/dev` or `/run` is followed at once by `--make-rslave` on the same target |
| `Stages.ChrootMounts` | gentoo_install.py:314-330 | seven `mount` commands; for a root without a trailing `/` they target `<root>/proc`, `<root>/sys`, `<root>/dev` and `<root>/run` (`PseudoMountsPaired` gives their order and pairing) |
| `Stages.GentooChrootTargets` | gentoo_install.py:314-330 | under `/mnt/gentoo` the targets are `/mnt/gentoo/proc`, `/mnt/gentoo/sys`, `/mnt/gentoo/dev` and `/mnt/gentoo/run` |
| `Stages.ChrootMountsUnderRoot` | gentoo_install.py:321-329 | every chroot mount target lies under the root |
| `Stages.LocaleId` | gentoo_install.py:1593-1598 | the locale id always contains a `.` |
| `Stages.LocaleIdExtends` | gentoo_install.py:1593-1598 | the id is the language when it contains `.`, and otherwise the language followed by `.UTF-8` |
| `Stages.LocaleIdIdempotent` | gentoo_install.py:1593-1598 | deriving the id again from an id changes nothing |
| `Stages.LocaleIdDefault` | gentoo_install.py:1593 | an empty language gives `en_US.UTF-8` |
| `Stages.PlanKernel` | gentoo_install.py:1737-1741 | `linux-firmware` is always emerged first, and its failure only warns |
| `Stages.PlanKernelModes` | gentoo_install.py:1743-1753 | `dist-kernel` and `manual` add one command, `genkernel` two, any other mode none, and every one of them is fatal on failure |
| `Stages.PlanBaseSystem` | gentoo_install.py:1564-1721 | at least twelve steps, its own contract gives only this bound; `BaseSystemPolicies` states which of them are best effort |
| `Stages.BaseSystemPolicies` | gentoo_install.py:1564-1721 | exactly the timezone-data, sync, cpuid2cpuflags and firmware commands are best effort; every other base-system command is fatal |
| `Stages.PlanBootloader` | gentoo_install.py:1756-1787 | the bootloader stage stops exactly for grub without UEFI and without a target disk, and then only the grub package has been emerged |
| `Stages.BootloaderDispatch` | gentoo_install.py:1760-1787 | systemd-boot runs `bootctl` exactly under UEFI; other bootloaders emit nothing; grub emits its package, one `grub-install` (EFI under UEFI, otherwise the target disk) and `grub-mkconfig` last |
| `Stages.ProfilesKeyedByName` | gentoo_install.py:185-210 | the profile table has the keys `none`, `gnome`, `plasma`, `xfce`, each naming its own profile |
| `Stages.EnableAll` | gentoo_install.py:1808-1810 | one `systemctl enable` per service, in order |
| `Stages.PlanDesktop` | gentoo_install.py:1792-1795 | an unset or unknown profile installs nothing |
| `Stages.DesktopDispatch` | gentoo_install.py:1797-1810 | `none` installs nothing; any other profile emits one `emerge` of its packages followed by one `systemctl enable` per service, in order |
| `Stages.NetworkDispatch` | gentoo_install.py:1879-1887 | NetworkManager steps appear exactly for `nm_default` and `nm_iwd`; `net-wireless/iwd` joins the NetworkManager `emerge` and `iwd` is enabled, each exactly for `nm_iwd` |
| `Stages.PlanFinalize` | gentoo_install.py:1889-1890 | the time synchronisation service is enabled last |
| `Stages.FinalizePasswords` | gentoo_install.py:1845-1865 | the root password is set when it is non-empty, then the user's when both the user and the password are non-empty; no other step sets a password |
| `Stages.PasswordsOfAppend` | gentoo_install.py:1845-1890 | the password steps of a concatenation are those of each part, in order |
| `Stages.PlanInstall` | gentoo_install.py:1899-1909 | a completed run has at least thirteen steps, its own contract gives only this bound; `PlanInstallStops`, `PlanInstallPasswords` and `InstallDryRunIsPreview` state where it stops, what sets passwords and what a dry run does |
| `Stages.PlanInstallStops` | gentoo_install.py:1899-1909 | a disk error stops the run before any command; a grub error stops it right after the grub package; a completed run ends with time synchronisation |
| `Stages.PlanInstallPasswords` | gentoo_install.py:1899-1909 | only the finalize stage sets passwords, so a run that stops early sets none |
| `Disks.PlanDisksOnHost` | gentoo_install.py:1367-1483 | disk preparation runs only `parted`, `mkfs.ext4`, `mkfs.vfat`, `mkdir` and `mount`, all on the host |
| `Stages.DisksOnHost` | gentoo_install.py:314-330 | the disk commands and the seven chroot mounts run on the host, not through `chroot` |
| `Stages.BaseSystemInTarget` | gentoo_install.py:1541-1721 | `configure_base_system` first runs the seven chroot mounts, and every later step runs through `chroot /mnt/gentoo` |
| `Stages.BootloaderInTarget` | gentoo_install.py:1756-1787 | every bootloader command runs through `chroot /mnt/gentoo` |
| `Stages.DesktopInTarget` | gentoo_install.py:1790-1810 | every desktop command runs through `chroot /mnt/gentoo` |
| `Stages.FinalizeInTarget` | gentoo_install.py:1813-1890 | every finalize step runs through `chroot /mnt/gentoo` or sets a password there |
| `Stages.InstallOrder` | gentoo_install.py:1899-1906 | when the disks can be prepared, the run is the disk commands, then the seven chroot mounts, all on the host, and then only steps inside `/mnt/gentoo`: every `chroot` command and every password comes after the mounts |
| `Stages.FinalizeUpToPasswords` | gentoo_install.py:1845-1890 | two configurations that differ only in their passwords give finalize steps that differ only in the passwords |
| `Stages.InstallAuditIgnoresPasswords` | gentoo_install.py:1899-1909 | if whether a process fails depends only on its argument vector, not on its standard input, then the installation log, dry or live, and where the run stops are the same whatever the passwords are |
| `Stages.InstallDryRunIsPreview` | gentoo_install.py:1899-1909 | a dry run of the installation starts nothing and logs the marked preview; a live run without fatal failures logs the same lines unmarked |
| `MakeConf.Jobs` | gentoo_install.py:1630 | an explicit non-zero job count is used as is; otherwise the count is positive (the processor count, or 2) |
| `MakeConf.AppendedAsWrittenIsOneLine` | gentoo_install.py:1635-1654 | the text as written contains no line break, so the three or four settings read back as one line |
| `MakeConf.AppendedLines` | gentoo_install.py:1635-1654 | with real newlines, the appended text reads back as exactly the settings, one per line |

## Left out

- The curses interface and the line prompts (`_tui_*`, `tui_main`, `run_tui`, `confirm`, `prompt_*`, `collect_config`): these are interactive. Their effect is the configuration and the yes/no answers, which are parameters here (`confirmWipe`, `confirmFormat`).
- JSON reading and writing (`load_config_file`, `save_config_file`, the file side of the credentials functions), `setup_logging`, `parse_args` and `main`: file and process plumbing. The dictionaries are modelled as maps from keys to typed values.
- Executor.AuditIgnoresPasswords: whether a process fails is assumed to depend only on its argument vector. A password that `chpasswd` rejects, or one containing a line break, can make the live run fail at that step in the source; the model does not promise the same outcome then.
- Stages.InstallAuditIgnoresPasswords: the same assumption about `fails` as for `Executor.AuditIgnoresPasswords`; where a live run stops can depend on the password otherwise.
- Config.LoadCredentials: the source stores a credentials value of any type. The model accepts a string or `None` and reports any other value as `IllTyped`, like `Config.FromDict`.
- `format_partitions` is a `Dict[str, str]` in the source. The model keeps it as a sequence of pairs in insertion order, and that sequence may name the same path twice. `Disks.FormatCommands` would then plan two `mkfs` runs on one partition, which the source's dictionary cannot produce. The model does not exclude duplicate paths.
- Config.FromDict: in the source, `GentooInstallConfig(**filtered)` accepts a value of any type. The typed model instead reports a value whose type does not fit its field as `IllTyped`. A JSON value of the wrong type has no counterpart in the record.
- `subprocess` execution, `run_cmd_capture`, `run_in_chroot_capture` and `list_disks`: these are foreign calls. The captured outputs of `findmnt` and `blkid` are parameters of `Fstab.FstabLines`. Whether a process fails is a parameter (`fails`) of `Executor.Execute`.
- The `mirrorselect` capture and the `cpuid2cpuflags` capture are left out, because their output only ever reaches `make.conf`. They run outside `run_cmd`, and `mirrorselect` runs even in a dry run.
- `install_stage3` (gentoo_install.py:1485-1531) is not part of this model, so `Stages.PlanInstall` runs the stages without it. It checks paths on disk and downloads with `wget`. It can also end the run with `sys.exit(1)` when the tarball does not exist. With a URL source in a dry run this always happens, right after the `wget` line is logged, because nothing was downloaded. `Stages.PlanInstallStops` and `Stages.InstallDryRunIsPreview` therefore cover neither this stop nor those log lines.
- File writes are left out: hostname, hosts, `locale.gen`, `locale.conf`, timezone, `resolv.conf`, the `mtab` symlink, sudoers and the `repos.conf` copy. They are side effects with no command. Of the locale code, only the locale id is modelled.
- The `[STEP]`, `[INFO]` and `[WARN]` prints are left out. Only the `[CMD]` audit lines are modelled.
- Stages.PlanBootloader: the source fails by raising `TypeError` when it builds the log line for `grub-install` with a `None` disk. The model records this as the `GrubWithoutDisk` stop, not as an exception.
- Disks.PlanDisks: the source exits the process on a missing root partition (`sys.exit(1)`). For a confirmed wipe with no target disk, it raises `AttributeError` inside `part_name`. The model returns these as `MissingRootPartition` and `MissingTargetDisk`.
- The warning that a `root_fs` other than `ext4` is ignored is a print only. The model likewise always formats the root as ext4.

## Findings

| source | as written | input that shows it | evidently intended | confidence | as-written member | corrected member |
|---|---|---|---|---|---|---|
| gentoo_install.py:1637-1654 | each `make.conf` setting is written followed by `"\\n"` inside an f-string, which is a backslash and an `n` and not a newline | any live run, e.g. `makeopts_jobs = 4` with every other field at its default: the appended text is `MAKEOPTS="-j4"\nEMERGE_DEFAULT_OPTS="--jobs=4 --load-average=4"\nFEATURES="parallel-fetch"\nACCEPT_LICENSE="…"\n` with literal `\n` pairs, all on one line | each setting on a line of its own | high, not executed | `MakeConf.AppendedAsWrittenIsOneLine` | `MakeConf.AppendedLines` |
