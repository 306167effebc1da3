/** The line logic of `generate_fstab`: turning the output of
    `findmnt -R -no SOURCE,TARGET,FSTYPE,UUID <root>` and of `blkid -s UUID -o value <swap>`
    into `/etc/fstab` lines. Both outputs are parameters; `None` stands for a command that
    failed, whose exception the installer catches. */
module Fstab {
  import opened Wrappers
  import opened Text
  import opened Config

  /** The mount point inside the new system of a target under `root`: the target with the
      root removed, or `/` when nothing is left. */
  function MountPoint(root: string, target: string): (mp: string)
    requires StartsWith(target, root)
    ensures |target| == |root| ==> mp == "/"
    ensures |target| > |root| ==> root + mp == target
    ensures mp != ""
  {
    var rel := target[|root|..];
    assert root + rel == target;
    if rel == "" then "/" else rel
  }

  /** The root itself is `/` with pass 1; `/mnt/gentoo/boot` is `/boot` with pass 2. */
  lemma MountPointExamples()
    ensures MountPoint("/mnt/gentoo", "/mnt/gentoo") == "/" && PassNumber("/") == "1"
    ensures MountPoint("/mnt/gentoo", "/mnt/gentoo/boot") == "/boot" && PassNumber("/boot") == "2"
  {
    assert "/mnt/gentoo/boot"[..|"/mnt/gentoo"|] == "/mnt/gentoo";
    assert "/mnt/gentoo/boot"[|"/mnt/gentoo"|..] == "/boot";
  }

  /** The pass number: `1` for the root file system, `2` for any other. */
  function PassNumber(mp: string): string {
    if mp == "/" then "1" else "2"
  }

  /** The fstab line for a mounted file system. */
  function EntryLine(uuid: string, mp: string, fstype: string): string {
    "UUID=" + uuid + " " + mp + " " + fstype + " defaults 0 " + PassNumber(mp)
  }

  /** One line of `findmnt` output: kept only when it has exactly four fields, a uuid and a
      file-system type, and a target under `root`. */
  function RowEntry(root: string, raw: string): Option<string> {
    var line := Strip(raw);
    if line == "" then None
    else
      var parts := Words(line);
      if |parts| != 4 then None
      else
        var target, fstype, uuid := parts[1], parts[2], parts[3];
        if uuid == "" || fstype == "" then None
        else if !StartsWith(target, root) then None
        else Some(EntryLine(uuid, MountPoint(root, target), fstype))
  }

  /** The entries for every mounted file system, in `findmnt`'s order. */
  function MountEntries(root: string, rows: seq<string>): (lines: seq<string>)
    ensures |lines| <= |rows|
  {
    if rows == [] then []
    else
      match RowEntry(root, rows[0])
      case None => MountEntries(root, rows[1..])
      case Some(l) => [l] + MountEntries(root, rows[1..])
  }

  /** The swap line for the uuid `blkid` printed. */
  function SwapLine(uuid: string): string {
    "UUID=" + uuid + " none swap sw 0 0"
  }

  /** The lines `generate_fstab` collects: the mounted file systems, then the swap
      partition when one is configured and `blkid` reported a non-empty uuid for it. */
  function FstabLines(root: string, findmnt: Option<string>, swapPartition: Option<string>, blkid: Option<string>): (lines: seq<string>)
    ensures |lines| <= (if findmnt.Some? then |SplitLines(findmnt.value)| else 0) + 1
  {
    var mounts := if findmnt.Some? then MountEntries(root, SplitLines(findmnt.value)) else [];
    if Truthy(swapPartition) && blkid.Some? && Strip(blkid.value) != "" then
      mounts + [SwapLine(Strip(blkid.value))]
    else mounts
  }

  /** What is written to `/etc/fstab`: nothing when there are no lines, otherwise the lines,
      each ended by a newline. */
  function FstabContent(lines: seq<string>): Option<string> {
    if lines == [] then None else Some(Join(lines, "\n") + "\n")
  }

  /** The rows that are dropped: anything but four fields, and a target outside `root`. */
  lemma RowDropped(root: string, raw: string)
    ensures |Words(Strip(raw))| != 4 ==> RowEntry(root, raw).None?
    ensures |Words(Strip(raw))| == 4 && !StartsWith(Words(Strip(raw))[1], root) ==> RowEntry(root, raw).None?
  {
    if Strip(raw) == "" {
      assert Words(Strip(raw)) == [];
    }
  }

  /** A four-field row under `root` is always kept: `split()` never yields an empty field,
      so the uuid and type checks never reject one. */
  lemma RowKept(root: string, raw: string)
    requires |Words(Strip(raw))| == 4 && StartsWith(Words(Strip(raw))[1], root)
    ensures var parts := Words(Strip(raw));
      RowEntry(root, raw) == Some(EntryLine(parts[3], MountPoint(root, parts[1]), parts[2]))
  {
    var parts := Words(Strip(raw));
    assert IsWord(parts[2]) && IsWord(parts[3]);
  }

  /** An entry line consists of six whitespace-free fields separated by single spaces. */
  lemma EntryWords(uuid: string, mp: string, fstype: string)
    requires IsWord(uuid) && IsWord(mp) && IsWord(fstype)
    ensures Words(EntryLine(uuid, mp, fstype)) == ["UUID=" + uuid, mp, fstype, "defaults", "0", PassNumber(mp)]
    ensures NoLineBreak(EntryLine(uuid, mp, fstype))
  {
    var fields := ["UUID=" + uuid, mp, fstype, "defaults", "0", PassNumber(mp)];
    assert IsWord("UUID=" + uuid) by {
      assert forall i :: 5 <= i < |"UUID=" + uuid| ==> ("UUID=" + uuid)[i] == uuid[i - 5];
    }
    assert forall i :: 0 <= i < |fields| ==> IsWord(fields[i]);
    EntryLineIsJoin(uuid, mp, fstype);
    WordsOfJoin(fields);
    forall i | 0 <= i < |fields|
      ensures NoLineBreak(fields[i])
    {
      WordNoLineBreak(fields[i]);
    }
    JoinNoLineBreak(fields, " ");
  }

  lemma EntryLineIsJoin(uuid: string, mp: string, fstype: string)
    ensures Join(["UUID=" + uuid, mp, fstype, "defaults", "0", PassNumber(mp)], " ") == EntryLine(uuid, mp, fstype)
  {
    var p := PassNumber(mp);
    JoinSpace("0", [p]);
    JoinSpace("defaults", ["0", p]);
    JoinSpace(fstype, ["defaults", "0", p]);
    JoinSpace(mp, [fstype, "defaults", "0", p]);
    JoinSpace("UUID=" + uuid, [mp, fstype, "defaults", "0", p]);
  }

  /** The six fields of a kept row: `UUID=<uuid>`, the mount point, the type, `defaults`,
      `0` and the pass number, which is `1` exactly for `/`. */
  lemma EntryFields(root: string, raw: string)
    requires RowEntry(root, raw).Some?
    ensures var parts := Words(Strip(raw));
      && |parts| == 4
      && StartsWith(parts[1], root)
      && Words(RowEntry(root, raw).value) ==
           ["UUID=" + parts[3], MountPoint(root, parts[1]), parts[2], "defaults", "0", PassNumber(MountPoint(root, parts[1]))]
      && (PassNumber(MountPoint(root, parts[1])) == "1" <==> MountPoint(root, parts[1]) == "/")
      && NoLineBreak(RowEntry(root, raw).value)
  {
    var parts := Words(Strip(raw));
    var mp := MountPoint(root, parts[1]);
    assert IsWord(mp) by {
      if mp != "/" {
        assert mp == parts[1][|root|..];
        assert IsWord(parts[1]);
      }
    }
    EntryWords(parts[3], mp, parts[2]);
  }

  /** A line is a mount entry exactly when some `findmnt` row yields it. */
  lemma {:induction false} MountEntriesExact(root: string, rows: seq<string>, line: string)
    ensures line in MountEntries(root, rows) <==> exists raw :: raw in rows && RowEntry(root, raw) == Some(line)
  {
    if rows != [] {
      MountEntriesExact(root, rows[1..], line);
      if line in MountEntries(root, rows[1..]) {
        var raw :| raw in rows[1..] && RowEntry(root, raw) == Some(line);
        assert raw in rows;
      }
      forall raw | raw in rows && RowEntry(root, raw) == Some(line)
        ensures line in MountEntries(root, rows)
      {
        if raw != rows[0] {
          assert raw in rows[1..];
        }
      }
    }
  }

  /** The swap line comes last, and only when a swap partition is configured and its uuid is
      non-empty; without it the lines are exactly the mount entries. */
  lemma SwapLast(root: string, findmnt: Option<string>, swapPartition: Option<string>, blkid: Option<string>)
    ensures var lines := FstabLines(root, findmnt, swapPartition, blkid);
      var mounts := if findmnt.Some? then MountEntries(root, SplitLines(findmnt.value)) else [];
      && (Truthy(swapPartition) && blkid.Some? && Strip(blkid.value) != "" <==> |lines| == |mounts| + 1)
      && lines[..|mounts|] == mounts
      && (|lines| == |mounts| + 1 ==> lines[|mounts|] == SwapLine(Strip(blkid.value)))
  {
  }

  /** No generated line contains a line break. */
  lemma {:induction false} EntriesHaveNoLineBreak(root: string, rows: seq<string>)
    ensures forall i :: 0 <= i < |MountEntries(root, rows)| ==> NoLineBreak(MountEntries(root, rows)[i])
  {
    if rows != [] {
      EntriesHaveNoLineBreak(root, rows[1..]);
      var r := RowEntry(root, rows[0]);
      if r.Some? {
        EntryFields(root, rows[0]);
      }
    }
  }

  lemma JoinSpace(w: string, ws: seq<string>)
    requires |ws| > 0
    ensures Join([w] + ws, " ") == w + " " + Join(ws, " ")
  {
    assert ([w] + ws)[1..] == ws;
  }

  /** The swap line breaks no line when the uuid does not. */
  lemma SwapLineNoLineBreak(u: string)
    requires NoLineBreak(u)
    ensures NoLineBreak(SwapLine(u))
  {
    NoLineBreakConcat("UUID=", u);
    NoLineBreakConcat("UUID=" + u, " none swap sw 0 0");
  }

  /** Reading the written file back with `splitlines()` gives the lines again. */
  lemma ContentRoundTrip(root: string, findmnt: Option<string>, swapPartition: Option<string>, blkid: Option<string>)
    requires blkid.Some? ==> NoLineBreak(Strip(blkid.value))
    ensures var lines := FstabLines(root, findmnt, swapPartition, blkid);
      && (FstabContent(lines).None? <==> lines == [])
      && (lines != [] ==> SplitLines(FstabContent(lines).value) == lines)
  {
    var lines := FstabLines(root, findmnt, swapPartition, blkid);
    var mounts := if findmnt.Some? then MountEntries(root, SplitLines(findmnt.value)) else [];
    if findmnt.Some? {
      EntriesHaveNoLineBreak(root, SplitLines(findmnt.value));
    }
    if blkid.Some? {
      SwapLineNoLineBreak(Strip(blkid.value));
    }
    if lines != [] {
      assert forall i :: 0 <= i < |lines| ==> NoLineBreak(lines[i]);
      SplitLinesOfJoin(lines);
    }
  }
}
