/** The installer's record of install intent (`GentooInstallConfig`), its completeness
    predicate, and its two storable forms: the non-secret field dictionary and the
    separate credentials dictionary. */
module Config {
  import opened Wrappers

  /** `GentooInstallConfig`. Python's `str | None` fields are `Option<string>`;
      `format_partitions` is an insertion-ordered dict, kept as a list of
      (partition path, filesystem) pairs because the order of `mkfs` follows it. */
  datatype InstallConfig = InstallConfig(
    schemaVersion: int,
    script: string,
    language: string,
    stage3Source: Option<string>,
    makeoptsJobs: Option<int>,
    featuresParallelFetch: bool,
    emergeKeepGoing: bool,
    targetDisk: Option<string>,
    diskMode: string,
    rootPartition: Option<string>,
    bootPartition: Option<string>,
    swapPartition: Option<string>,
    formatPartitions: seq<(string, string)>,
    rootFs: string,
    useUefi: Option<bool>,
    desktopProfile: Option<string>,
    hostname: Option<string>,
    username: Option<string>,
    rootPassword: Option<string>,
    userPassword: Option<string>,
    userIsSudoer: bool,
    bootloader: string,
    kernel: string,
    networkMode: string)

  /** The dataclass defaults, i.e. `GentooInstallConfig()`. */
  const Defaults := InstallConfig(
    1, "guided", "en_US", None, None, true, false,
    None, "auto", None, None, None, [], "ext4", None,
    None, None, None, None, None, true,
    "systemd-boot", "dist-kernel", "copy_iso")

  /** Python truthiness of an optional string: set and non-empty. */
  predicate Truthy(o: Option<string>) {
    o.Some? && o.value != ""
  }

  /** The disk-identity requirement: manual mode needs a root partition; every other
      `disk_mode` value is treated as auto and needs a target disk. */
  predicate DiskIdentitySet(c: InstallConfig) {
    if c.diskMode == "manual" then Truthy(c.rootPartition) else Truthy(c.targetDisk)
  }

  /** `is_complete`: every required field truthy, `use_uefi` merely not `None`. */
  predicate IsComplete(c: InstallConfig) {
    && c.language != ""
    && DiskIdentitySet(c)
    && c.rootFs != ""
    && c.useUefi.Some?
    && Truthy(c.desktopProfile)
    && Truthy(c.hostname)
    && Truthy(c.username)
    && Truthy(c.rootPassword)
    && Truthy(c.userPassword)
    && c.bootloader != ""
    && c.kernel != ""
    && c.networkMode != ""
  }

  /** In manual mode the target disk is irrelevant and the root partition is required. */
  lemma ManualCompleteness(c: InstallConfig, disk: Option<string>)
    requires c.diskMode == "manual"
    ensures IsComplete(c.(targetDisk := disk)) == IsComplete(c)
    ensures IsComplete(c) ==> Truthy(c.rootPartition)
  {
  }

  /** In any other mode the root partition is irrelevant and the target disk is required. */
  lemma AutoCompleteness(c: InstallConfig, root: Option<string>)
    requires c.diskMode != "manual"
    ensures IsComplete(c.(rootPartition := root)) == IsComplete(c)
    ensures IsComplete(c) ==> Truthy(c.targetDisk)
  {
  }

  /** `use_uefi = False` is as good as `True`; only the unset value blocks installation. */
  lemma UefiTriState(c: InstallConfig)
    ensures IsComplete(c.(useUefi := Some(false))) == IsComplete(c.(useUefi := Some(true)))
    ensures !IsComplete(c.(useUefi := None))
  {
  }

  // ---------------------------------------------------------------------------
  // Field names

  /** The dataclass fields, in declaration order. */
  datatype FieldName =
    | SchemaVersion | Script | Language | Stage3Source | MakeoptsJobs | FeaturesParallelFetch
    | EmergeKeepGoing | TargetDisk | DiskMode | RootPartition | BootPartition | SwapPartition
    | FormatPartitions | RootFs | UseUefi | DesktopProfile | Hostname | Username
    | RootPassword | UserPassword | UserIsSudoer | Bootloader | Kernel | NetworkMode

  const AllFields: set<FieldName> := {
    SchemaVersion, Script, Language, Stage3Source, MakeoptsJobs, FeaturesParallelFetch,
    EmergeKeepGoing, TargetDisk, DiskMode, RootPartition, BootPartition, SwapPartition,
    FormatPartitions, RootFs, UseUefi, DesktopProfile, Hostname, Username,
    RootPassword, UserPassword, UserIsSudoer, Bootloader, Kernel, NetworkMode}

  predicate IsSecret(f: FieldName) {
    f == RootPassword || f == UserPassword
  }

  /** The dictionary key of a field: its Python attribute name. */
  function Name(f: FieldName): string {
    match f
    case SchemaVersion => "schema_version"
    case Script => "script"
    case Language => "language"
    case Stage3Source => "stage3_source"
    case MakeoptsJobs => "makeopts_jobs"
    case FeaturesParallelFetch => "features_parallel_fetch"
    case EmergeKeepGoing => "emerge_keep_going"
    case TargetDisk => "target_disk"
    case DiskMode => "disk_mode"
    case RootPartition => "root_partition"
    case BootPartition => "boot_partition"
    case SwapPartition => "swap_partition"
    case FormatPartitions => "format_partitions"
    case RootFs => "root_fs"
    case UseUefi => "use_uefi"
    case DesktopProfile => "desktop_profile"
    case Hostname => "hostname"
    case Username => "username"
    case RootPassword => "root_password"
    case UserPassword => "user_password"
    case UserIsSudoer => "user_is_sudoer"
    case Bootloader => "bootloader"
    case Kernel => "kernel"
    case NetworkMode => "network_mode"
  }

  /** The only field whose name starts with `first`, `second` and ends with `last`
      (these three characters already tell the 24 names apart). */
  function ByInitials(first: char, second: char, last: char): Option<FieldName> {
    match first
    case 's' =>
      if second == 'c' && last == 'n' then Some(SchemaVersion)
      else if second == 'c' && last == 't' then Some(Script)
      else if second == 't' && last == 'e' then Some(Stage3Source)
      else if second == 'w' && last == 'n' then Some(SwapPartition)
      else None
    case 'l' => if second == 'a' && last == 'e' then Some(Language) else None
    case 'm' => if second == 'a' && last == 's' then Some(MakeoptsJobs) else None
    case 'f' =>
      if second == 'e' && last == 'h' then Some(FeaturesParallelFetch)
      else if second == 'o' && last == 's' then Some(FormatPartitions)
      else None
    case 'e' => if second == 'm' && last == 'g' then Some(EmergeKeepGoing) else None
    case 't' => if second == 'a' && last == 'k' then Some(TargetDisk) else None
    case 'd' =>
      if second == 'i' && last == 'e' then Some(DiskMode)
      else if second == 'e' && last == 'e' then Some(DesktopProfile)
      else None
    case 'r' =>
      if second == 'o' && last == 'n' then Some(RootPartition)
      else if second == 'o' && last == 's' then Some(RootFs)
      else if second == 'o' && last == 'd' then Some(RootPassword)
      else None
    case 'b' =>
      if second == 'o' && last == 'n' then Some(BootPartition)
      else if second == 'o' && last == 'r' then Some(Bootloader)
      else None
    case 'u' =>
      if second == 's' && last == 'i' then Some(UseUefi)
      else if second == 's' && last == 'e' then Some(Username)
      else if second == 's' && last == 'd' then Some(UserPassword)
      else if second == 's' && last == 'r' then Some(UserIsSudoer)
      else None
    case 'h' => if second == 'o' && last == 'e' then Some(Hostname) else None
    case 'k' => if second == 'e' && last == 'l' then Some(Kernel) else None
    case 'n' => if second == 'e' && last == 'e' then Some(NetworkMode) else None
    case _ => None
  }

  /** The field a dictionary key names, if any: the `allowed` test of `config_from_dict`. */
  function FieldOf(key: string): (r: Option<FieldName>)
    ensures r.Some? ==> Name(r.value) == key
  {
    if |key| < 2 then None
    else
      var f := ByInitials(key[0], key[1], key[|key| - 1]);
      if f.Some? && Name(f.value) == key then f else None
  }

  /** Every field's name is recognised as that field, so no two fields share a key. */
  lemma FieldOfName(f: FieldName)
    ensures FieldOf(Name(f)) == Some(f)
  {
    match f
    case SchemaVersion | Script | Language | Stage3Source | MakeoptsJobs | FeaturesParallelFetch | EmergeKeepGoing => FieldOfName0(f);
    case TargetDisk | DiskMode | RootPartition | BootPartition | SwapPartition | FormatPartitions | RootFs | UseUefi => FieldOfName1(f);
    case DesktopProfile | Hostname | Username | RootPassword | UserPassword | UserIsSudoer => FieldOfName2(f);
    case Bootloader | Kernel | NetworkMode => FieldOfName3(f);
  }

  lemma FieldOfName0(f: FieldName)
    requires f in {SchemaVersion, Script, Language, Stage3Source, MakeoptsJobs, FeaturesParallelFetch, EmergeKeepGoing}
    ensures FieldOf(Name(f)) == Some(f)
  {
  }

  lemma FieldOfName1(f: FieldName)
    requires f in {TargetDisk, DiskMode, RootPartition, BootPartition, SwapPartition, FormatPartitions, RootFs, UseUefi}
    ensures FieldOf(Name(f)) == Some(f)
  {
  }

  lemma FieldOfName2(f: FieldName)
    requires f in {DesktopProfile, Hostname, Username, RootPassword, UserPassword, UserIsSudoer}
    ensures FieldOf(Name(f)) == Some(f)
  {
  }

  lemma FieldOfName3(f: FieldName)
    requires f in {Bootloader, Kernel, NetworkMode}
    ensures FieldOf(Name(f)) == Some(f)
  {
  }

  lemma NameInjective()
    ensures forall a, b :: Name(a) == Name(b) ==> a == b
  {
    forall a, b | Name(a) == Name(b)
      ensures a == b
    {
      FieldOfName(a);
      FieldOfName(b);
    }
  }

  // ---------------------------------------------------------------------------
  // Dictionary form

  /** A value of the dictionary that `dataclasses.asdict` produces and JSON carries. */
  datatype Value =
    | VNone
    | VBool(b: bool)
    | VInt(i: int)
    | VStr(s: string)
    | VDict(entries: seq<(string, string)>)

  /** A key whose value has a type the field cannot hold (Python stores it unchecked). */
  datatype DictError = IllTyped(key: string)

  function OptStr(o: Option<string>): Value {
    if o.Some? then VStr(o.value) else VNone
  }

  function OptInt(o: Option<int>): Value {
    if o.Some? then VInt(o.value) else VNone
  }

  function OptBool(o: Option<bool>): Value {
    if o.Some? then VBool(o.value) else VNone
  }

  /** The `asdict` value of one field. */
  function Encode(c: InstallConfig, f: FieldName): Value {
    match f
    case SchemaVersion => VInt(c.schemaVersion)
    case Script => VStr(c.script)
    case Language => VStr(c.language)
    case Stage3Source => OptStr(c.stage3Source)
    case MakeoptsJobs => OptInt(c.makeoptsJobs)
    case FeaturesParallelFetch => VBool(c.featuresParallelFetch)
    case EmergeKeepGoing => VBool(c.emergeKeepGoing)
    case TargetDisk => OptStr(c.targetDisk)
    case DiskMode => VStr(c.diskMode)
    case RootPartition => OptStr(c.rootPartition)
    case BootPartition => OptStr(c.bootPartition)
    case SwapPartition => OptStr(c.swapPartition)
    case FormatPartitions => VDict(c.formatPartitions)
    case RootFs => VStr(c.rootFs)
    case UseUefi => OptBool(c.useUefi)
    case DesktopProfile => OptStr(c.desktopProfile)
    case Hostname => OptStr(c.hostname)
    case Username => OptStr(c.username)
    case RootPassword => OptStr(c.rootPassword)
    case UserPassword => OptStr(c.userPassword)
    case UserIsSudoer => VBool(c.userIsSudoer)
    case Bootloader => VStr(c.bootloader)
    case Kernel => VStr(c.kernel)
    case NetworkMode => VStr(c.networkMode)
  }

  /** The fields in declaration order. */
  const FieldOrder: seq<FieldName> := [
    SchemaVersion, Script, Language, Stage3Source, MakeoptsJobs, FeaturesParallelFetch,
    EmergeKeepGoing, TargetDisk, DiskMode, RootPartition, BootPartition, SwapPartition,
    FormatPartitions, RootFs, UseUefi, DesktopProfile, Hostname, Username,
    RootPassword, UserPassword, UserIsSudoer, Bootloader, Kernel, NetworkMode]

  /** The entries `asdict` produces for the fields `fs`, secrets popped. */
  function StoredEntries(c: InstallConfig, fs: seq<FieldName>): (d: map<string, Value>)
    ensures forall f :: Name(f) in d <==> f in fs && !IsSecret(f)
    ensures forall f :: Name(f) in d ==> d[Name(f)] == Encode(c, f)
  {
    NameInjective();
    if fs == [] then map[]
    else if IsSecret(fs[0]) then StoredEntries(c, fs[1..])
    else StoredEntries(c, fs[1..])[Name(fs[0]) := Encode(c, fs[0])]
  }

  /** `config_to_dict`: `asdict` with both password keys popped. */
  function ToDict(c: InstallConfig): (d: map<string, Value>)
    ensures forall f :: Name(f) in d <==> !IsSecret(f)
    ensures forall f :: Name(f) in d ==> d[Name(f)] == Encode(c, f)
  {
    FieldOrderComplete();
    StoredEntries(c, FieldOrder)
  }

  /** `FieldOrder` and `AllFields` list every field. */
  lemma FieldListed(f: FieldName)
    ensures f in FieldOrder && f in AllFields
  {
    match f
    case SchemaVersion =>
    case Script =>
    case Language =>
    case Stage3Source =>
    case MakeoptsJobs =>
    case FeaturesParallelFetch =>
    case EmergeKeepGoing =>
    case TargetDisk =>
    case DiskMode =>
    case RootPartition =>
    case BootPartition =>
    case SwapPartition =>
    case FormatPartitions =>
    case RootFs =>
    case UseUefi =>
    case DesktopProfile =>
    case Hostname =>
    case Username =>
    case RootPassword =>
    case UserPassword =>
    case UserIsSudoer =>
    case Bootloader =>
    case Kernel =>
    case NetworkMode =>
  }

  lemma FieldOrderComplete()
    ensures forall f :: f in FieldOrder && f in AllFields
  {
    forall f
      ensures f in FieldOrder && f in AllFields
    {
      FieldListed(f);
    }
  }

  /** Every key of the stored form names a field. */
  lemma ToDictKeysAreFields(c: InstallConfig)
    ensures forall k :: k in ToDict(c) ==> FieldOf(k).Some?
  {
    var d := StoredEntries(c, FieldOrder);
    forall k | k in d
      ensures FieldOf(k).Some?
    {
      KeyOfStored(c, FieldOrder, k);
    }
  }

  lemma {:induction false} KeyOfStored(c: InstallConfig, fs: seq<FieldName>, k: string)
    requires k in StoredEntries(c, fs)
    ensures FieldOf(k).Some?
  {
    if fs != [] {
      if !IsSecret(fs[0]) && k == Name(fs[0]) {
        FieldOfName(fs[0]);
      } else {
        KeyOfStored(c, fs[1..], k);
      }
    }
  }

  /** The entries of a dictionary whose keys are field names (`filtered` in
      `config_from_dict`), re-keyed by field. */
  function Known(d: map<string, Value>): (m: map<FieldName, Value>)
    ensures forall f :: f in m <==> Name(f) in d
    ensures forall f :: f in m ==> m[f] == d[Name(f)]
  {
    map f | f in AllFields && Name(f) in d :: d[Name(f)]
  }

  /** The non-secret fields of `c`, keyed by field. */
  function ToFields(c: InstallConfig): map<FieldName, Value> {
    map f | f in AllFields && !IsSecret(f) :: Encode(c, f)
  }

  /** One keyword argument of `GentooInstallConfig(**filtered)`: the field default when
      the key is absent, the stored value when it is present and of the field's type.
      One reader per field type. */
  function IntField(d: map<FieldName, Value>, f: FieldName, default: int): (r: Result<int, DictError>)
    ensures r.Failure? ==> f in d && r.error == IllTyped(Name(f))
    ensures f !in d ==> r == Success(default)
  {
    if f !in d then Success(default)
    else if d[f].VInt? then Success(d[f].i)
    else Failure(IllTyped(Name(f)))
  }

  function BoolField(d: map<FieldName, Value>, f: FieldName, default: bool): (r: Result<bool, DictError>)
    ensures r.Failure? ==> f in d && r.error == IllTyped(Name(f))
    ensures f !in d ==> r == Success(default)
  {
    if f !in d then Success(default)
    else if d[f].VBool? then Success(d[f].b)
    else Failure(IllTyped(Name(f)))
  }

  function StrField(d: map<FieldName, Value>, f: FieldName, default: string): (r: Result<string, DictError>)
    ensures r.Failure? ==> f in d && r.error == IllTyped(Name(f))
    ensures f !in d ==> r == Success(default)
  {
    if f !in d then Success(default)
    else if d[f].VStr? then Success(d[f].s)
    else Failure(IllTyped(Name(f)))
  }

  function DictField(d: map<FieldName, Value>, f: FieldName, default: seq<(string, string)>): (r: Result<seq<(string, string)>, DictError>)
    ensures r.Failure? ==> f in d && r.error == IllTyped(Name(f))
    ensures f !in d ==> r == Success(default)
  {
    if f !in d then Success(default)
    else if d[f].VDict? then Success(d[f].entries)
    else Failure(IllTyped(Name(f)))
  }

  function OptIntField(d: map<FieldName, Value>, f: FieldName, default: Option<int>): (r: Result<Option<int>, DictError>)
    ensures r.Failure? ==> f in d && r.error == IllTyped(Name(f))
    ensures f !in d ==> r == Success(default)
  {
    if f !in d then Success(default)
    else match d[f]
      case VNone => Success(None)
      case VInt(i) => Success(Some(i))
      case _ => Failure(IllTyped(Name(f)))
  }

  function OptBoolField(d: map<FieldName, Value>, f: FieldName, default: Option<bool>): (r: Result<Option<bool>, DictError>)
    ensures r.Failure? ==> f in d && r.error == IllTyped(Name(f))
    ensures f !in d ==> r == Success(default)
  {
    if f !in d then Success(default)
    else match d[f]
      case VNone => Success(None)
      case VBool(b) => Success(Some(b))
      case _ => Failure(IllTyped(Name(f)))
  }

  function OptStrField(d: map<FieldName, Value>, f: FieldName, default: Option<string>): (r: Result<Option<string>, DictError>)
    ensures r.Failure? ==> f in d && r.error == IllTyped(Name(f))
    ensures f !in d ==> r == Success(default)
  {
    if f !in d then Success(default)
    else match d[f]
      case VNone => Success(None)
      case VStr(s) => Success(Some(s))
      case _ => Failure(IllTyped(Name(f)))
  }

  /** The schema, language, stage3 and build-option fields. */
  function BuildFields(d: map<FieldName, Value>): (r: Result<(int, string, string, Option<string>, Option<int>, bool, bool), DictError>)
    ensures r.Failure? ==> exists f :: f in d && r.error == IllTyped(Name(f))
  {
    var schemaVersion :- IntField(d, SchemaVersion, Defaults.schemaVersion);
    var script :- StrField(d, Script, Defaults.script);
    var language :- StrField(d, Language, Defaults.language);
    var stage3Source :- OptStrField(d, Stage3Source, Defaults.stage3Source);
    var makeoptsJobs :- OptIntField(d, MakeoptsJobs, Defaults.makeoptsJobs);
    var featuresParallelFetch :- BoolField(d, FeaturesParallelFetch, Defaults.featuresParallelFetch);
    var emergeKeepGoing :- BoolField(d, EmergeKeepGoing, Defaults.emergeKeepGoing);
    Success((schemaVersion, script, language, stage3Source, makeoptsJobs, featuresParallelFetch, emergeKeepGoing))
  }

  /** The disk fields. */
  function DiskFields(d: map<FieldName, Value>): (r: Result<(Option<string>, string, Option<string>, Option<string>, Option<string>, seq<(string, string)>, string, Option<bool>), DictError>)
    ensures r.Failure? ==> exists f :: f in d && r.error == IllTyped(Name(f))
  {
    var targetDisk :- OptStrField(d, TargetDisk, Defaults.targetDisk);
    var diskMode :- StrField(d, DiskMode, Defaults.diskMode);
    var rootPartition :- OptStrField(d, RootPartition, Defaults.rootPartition);
    var bootPartition :- OptStrField(d, BootPartition, Defaults.bootPartition);
    var swapPartition :- OptStrField(d, SwapPartition, Defaults.swapPartition);
    var formatPartitions :- DictField(d, FormatPartitions, Defaults.formatPartitions);
    var rootFs :- StrField(d, RootFs, Defaults.rootFs);
    var useUefi :- OptBoolField(d, UseUefi, Defaults.useUefi);
    Success((targetDisk, diskMode, rootPartition, bootPartition, swapPartition, formatPartitions, rootFs, useUefi))
  }

  /** The system identity and authentication fields. */
  function AccountFields(d: map<FieldName, Value>): (r: Result<(Option<string>, Option<string>, Option<string>, Option<string>, Option<string>, bool), DictError>)
    ensures r.Failure? ==> exists f :: f in d && r.error == IllTyped(Name(f))
  {
    var desktopProfile :- OptStrField(d, DesktopProfile, Defaults.desktopProfile);
    var hostname :- OptStrField(d, Hostname, Defaults.hostname);
    var username :- OptStrField(d, Username, Defaults.username);
    var rootPassword :- OptStrField(d, RootPassword, Defaults.rootPassword);
    var userPassword :- OptStrField(d, UserPassword, Defaults.userPassword);
    var userIsSudoer :- BoolField(d, UserIsSudoer, Defaults.userIsSudoer);
    Success((desktopProfile, hostname, username, rootPassword, userPassword, userIsSudoer))
  }

  /** The bootloader, kernel and network fields. */
  function BootFields(d: map<FieldName, Value>): (r: Result<(string, string, string), DictError>)
    ensures r.Failure? ==> exists f :: f in d && r.error == IllTyped(Name(f))
  {
    var bootloader :- StrField(d, Bootloader, Defaults.bootloader);
    var kernel :- StrField(d, Kernel, Defaults.kernel);
    var networkMode :- StrField(d, NetworkMode, Defaults.networkMode);
    Success((bootloader, kernel, networkMode))
  }

  /** `config_from_dict`: only keys that name a field are read (the default stands in
      for an absent one); any other key is ignored. */
  function FromDict(d: map<string, Value>): (r: Result<InstallConfig, DictError>)
    ensures r.Failure? ==> r.error.key in d && FieldOf(r.error.key).Some?
    ensures (forall k :: k in d ==> FieldOf(k).None?) ==> r == Success(Defaults)
  {
    var r := FromFields(Known(d));
    if r.Failure? then
      KnownError(d, r.error);
      r
    else if forall k :: k in d ==> FieldOf(k).None? then
      NoFieldKnown(d);
      r
    else
      r
  }

  /** An error about a field read from the filtered dictionary names a key of `d`. */
  lemma KnownError(d: map<string, Value>, e: DictError)
    requires exists f :: f in Known(d) && e == IllTyped(Name(f))
    ensures e.key in d && FieldOf(e.key).Some?
  {
    var f :| f in Known(d) && e == IllTyped(Name(f));
    FieldOfName(f);
  }

  /** A dictionary none of whose keys names a field has nothing to read. */
  lemma NoFieldKnown(d: map<string, Value>)
    requires forall k :: k in d ==> FieldOf(k).None?
    ensures Known(d) == map[]
  {
    forall f
      ensures Name(f) !in d
    {
      FieldOfName(f);
    }
  }

  /** `GentooInstallConfig(**filtered)`: every field read from `d` or defaulted. */
  function FromFields(d: map<FieldName, Value>): (r: Result<InstallConfig, DictError>)
    ensures r.Failure? ==> exists f :: f in d && r.error == IllTyped(Name(f))
    ensures d == map[] ==> r == Success(Defaults)
  {
    var b :- BuildFields(d);
    var k :- DiskFields(d);
    var a :- AccountFields(d);
    var t :- BootFields(d);
    Success(InstallConfig(
      b.0, b.1, b.2, b.3, b.4, b.5, b.6,
      k.0, k.1, k.2, k.3, k.4, k.5, k.6, k.7,
      a.0, a.1, a.2, a.3, a.4, a.5,
      t.0, t.1, t.2))
  }

  /** `d` holds exactly the non-secret fields of `c`, each in its stored form. */
  ghost predicate Stores(d: map<FieldName, Value>, c: InstallConfig) {
    forall f :: (f in d <==> !IsSecret(f)) && (f in d ==> d[f] == Encode(c, f))
  }

  /** `c` as it comes back from the non-secret form: both passwords at their default. */
  function WithoutSecrets(c: InstallConfig): InstallConfig {
    c.(rootPassword := None, userPassword := None)
  }

  /** Decoding the non-secret form restores every field but the passwords. */
  lemma FromDictToDict(c: InstallConfig)
    ensures FromDict(ToDict(c)) == Success(WithoutSecrets(c))
  {
    var d := Known(ToDict(c));
    BuildFieldsRoundTrip(d, c);
    DiskFieldsRoundTrip(d, c);
    AccountFieldsRoundTrip(d, c);
    BootFieldsRoundTrip(d, c);
  }

  lemma BuildFieldsRoundTrip(d: map<FieldName, Value>, c: InstallConfig)
    requires Stores(d, c)
    ensures BuildFields(d) == Success((c.schemaVersion, c.script, c.language, c.stage3Source, c.makeoptsJobs, c.featuresParallelFetch, c.emergeKeepGoing))
  {
    assert IntField(d, SchemaVersion, Defaults.schemaVersion) == Success(c.schemaVersion);
    assert StrField(d, Script, Defaults.script) == Success(c.script);
    assert StrField(d, Language, Defaults.language) == Success(c.language);
    assert OptStrField(d, Stage3Source, Defaults.stage3Source) == Success(c.stage3Source);
    assert OptIntField(d, MakeoptsJobs, Defaults.makeoptsJobs) == Success(c.makeoptsJobs);
    assert BoolField(d, FeaturesParallelFetch, Defaults.featuresParallelFetch) == Success(c.featuresParallelFetch);
    assert BoolField(d, EmergeKeepGoing, Defaults.emergeKeepGoing) == Success(c.emergeKeepGoing);
  }

  lemma DiskFieldsRoundTrip(d: map<FieldName, Value>, c: InstallConfig)
    requires Stores(d, c)
    ensures DiskFields(d) == Success((c.targetDisk, c.diskMode, c.rootPartition, c.bootPartition, c.swapPartition, c.formatPartitions, c.rootFs, c.useUefi))
  {
    PartitionFieldsRoundTrip(d, c);
    assert DictField(d, FormatPartitions, Defaults.formatPartitions) == Success(c.formatPartitions);
    assert StrField(d, RootFs, Defaults.rootFs) == Success(c.rootFs);
    assert OptBoolField(d, UseUefi, Defaults.useUefi) == Success(c.useUefi);
  }

  lemma PartitionFieldsRoundTrip(d: map<FieldName, Value>, c: InstallConfig)
    requires Stores(d, c)
    ensures OptStrField(d, TargetDisk, Defaults.targetDisk) == Success(c.targetDisk)
    ensures StrField(d, DiskMode, Defaults.diskMode) == Success(c.diskMode)
    ensures OptStrField(d, RootPartition, Defaults.rootPartition) == Success(c.rootPartition)
    ensures OptStrField(d, BootPartition, Defaults.bootPartition) == Success(c.bootPartition)
    ensures OptStrField(d, SwapPartition, Defaults.swapPartition) == Success(c.swapPartition)
  {
  }

  lemma AccountFieldsRoundTrip(d: map<FieldName, Value>, c: InstallConfig)
    requires Stores(d, c)
    ensures AccountFields(d) == Success((c.desktopProfile, c.hostname, c.username, None, None, c.userIsSudoer))
  {
    assert OptStrField(d, DesktopProfile, Defaults.desktopProfile) == Success(c.desktopProfile);
    assert OptStrField(d, Hostname, Defaults.hostname) == Success(c.hostname);
    assert OptStrField(d, Username, Defaults.username) == Success(c.username);
    assert OptStrField(d, RootPassword, Defaults.rootPassword) == Success(None);
    assert OptStrField(d, UserPassword, Defaults.userPassword) == Success(None);
    assert BoolField(d, UserIsSudoer, Defaults.userIsSudoer) == Success(c.userIsSudoer);
  }

  lemma BootFieldsRoundTrip(d: map<FieldName, Value>, c: InstallConfig)
    requires Stores(d, c)
    ensures BootFields(d) == Success((c.bootloader, c.kernel, c.networkMode))
  {
    assert StrField(d, Bootloader, Defaults.bootloader) == Success(c.bootloader);
    assert StrField(d, Kernel, Defaults.kernel) == Success(c.kernel);
    assert StrField(d, NetworkMode, Defaults.networkMode) == Success(c.networkMode);
  }

  /** Re-keying the stored dictionary by field gives back exactly the non-secret fields. */
  lemma KnownToDict(c: InstallConfig)
    ensures Known(ToDict(c)) == ToFields(c)
  {
    var k, t := Known(ToDict(c)), ToFields(c);
    forall f
      ensures f in k <==> f in t
      ensures f in k ==> k[f] == t[f]
    {
      FieldListed(f);
    }
  }

  lemma EncodeIgnoresSecrets(c: InstallConfig, f: FieldName)
    requires !IsSecret(f)
    ensures Encode(WithoutSecrets(c), f) == Encode(c, f)
  {
  }

  /** The stored form does not depend on the passwords. */
  lemma ToDictIgnoresSecrets(c: InstallConfig)
    ensures ToDict(WithoutSecrets(c)) == ToDict(c)
  {
    StoredIgnoresSecrets(c, FieldOrder);
  }

  lemma {:induction false} StoredIgnoresSecrets(c: InstallConfig, fs: seq<FieldName>)
    ensures StoredEntries(WithoutSecrets(c), fs) == StoredEntries(c, fs)
  {
    if fs != [] {
      StoredIgnoresSecrets(c, fs[1..]);
      if !IsSecret(fs[0]) {
        EncodeIgnoresSecrets(c, fs[0]);
      }
    }
  }

  /** Encode, decode, encode: the two encodings agree field for field. */
  lemma ToDictStable(c: InstallConfig)
    ensures FromDict(ToDict(c)).Success?
    ensures ToDict(FromDict(ToDict(c)).value) == ToDict(c)
  {
    FromDictToDict(c);
    ToDictIgnoresSecrets(c);
  }

  /** Keys that are not field names do not affect decoding. */
  lemma FromDictIgnoresUnknownKeys(d: map<string, Value>, extra: map<string, Value>)
    requires forall k :: k in extra ==> FieldOf(k).None?
    ensures FromDict(d + extra) == FromDict(d - extra.Keys)
  {
    forall f
      ensures Name(f) !in extra
    {
      FieldOfName(f);
    }
    assert Known(d + extra) == Known(d - extra.Keys);
  }

  /** Whether `v` has a type field `f` can hold; `None` only for the optional fields. */
  predicate Fits(f: FieldName, v: Value) {
    match f
    case SchemaVersion => v.VInt?
    case MakeoptsJobs => v.VNone? || v.VInt?
    case FeaturesParallelFetch | EmergeKeepGoing | UserIsSudoer => v.VBool?
    case UseUefi => v.VNone? || v.VBool?
    case FormatPartitions => v.VDict?
    case Script | Language | DiskMode | RootFs | Bootloader | Kernel | NetworkMode => v.VStr?
    case Stage3Source | TargetDisk | RootPartition | BootPartition | SwapPartition
       | DesktopProfile | Hostname | Username | RootPassword | UserPassword => v.VNone? || v.VStr?
  }

  /** Every entry of `m` fits its field. */
  predicate AllFit(m: map<FieldName, Value>) {
    forall f :: f in m ==> Fits(f, m[f])
  }

  /** The value field `f` ends up with: the one in `m`, or else its default. */
  function Pick(m: map<FieldName, Value>, f: FieldName): Value {
    if f in m then m[f] else Encode(Defaults, f)
  }

  /** A dictionary holding only some fields, each with a value of the field's type, decodes:
      every key present sets its field and every other field keeps its default. */
  lemma FromDictPartial(d: map<string, Value>)
    requires forall f :: Name(f) in d ==> Fits(f, d[Name(f)])
    ensures FromDict(d).Success?
    ensures forall f :: Encode(FromDict(d).value, f) == if Name(f) in d then d[Name(f)] else Encode(Defaults, f)
  {
    var m := Known(d);
    assert AllFit(m);
    FromFieldsPartial(m);
    forall f
      ensures Pick(m, f) == if Name(f) in d then d[Name(f)] else Encode(Defaults, f)
    {
    }
  }

  /** Every field of `c` holds what `m` gives it, or else its default. */
  predicate Decoded(c: InstallConfig, m: map<FieldName, Value>) {
    && BuildDecoded((c.schemaVersion, c.script, c.language, c.stage3Source, c.makeoptsJobs, c.featuresParallelFetch, c.emergeKeepGoing), m)
    && DiskDecoded((c.targetDisk, c.diskMode, c.rootPartition, c.bootPartition, c.swapPartition, c.formatPartitions, c.rootFs, c.useUefi), m)
    && AccountDecoded((c.desktopProfile, c.hostname, c.username, c.rootPassword, c.userPassword, c.userIsSudoer), m)
    && BootDecoded((c.bootloader, c.kernel, c.networkMode), m)
  }

  /** The group predicates: each component holds what `m` gives its field, or else its default. */
  predicate BuildDecoded(b: (int, string, string, Option<string>, Option<int>, bool, bool), m: map<FieldName, Value>) {
    VInt(b.0) == (if SchemaVersion in m then m[SchemaVersion] else VInt(Defaults.schemaVersion))
    && VStr(b.1) == (if Script in m then m[Script] else VStr(Defaults.script))
    && VStr(b.2) == (if Language in m then m[Language] else VStr(Defaults.language))
    && OptStr(b.3) == (if Stage3Source in m then m[Stage3Source] else OptStr(Defaults.stage3Source))
    && OptInt(b.4) == (if MakeoptsJobs in m then m[MakeoptsJobs] else OptInt(Defaults.makeoptsJobs))
    && VBool(b.5) == (if FeaturesParallelFetch in m then m[FeaturesParallelFetch] else VBool(Defaults.featuresParallelFetch))
    && VBool(b.6) == (if EmergeKeepGoing in m then m[EmergeKeepGoing] else VBool(Defaults.emergeKeepGoing))
  }

  predicate DiskDecoded(k: (Option<string>, string, Option<string>, Option<string>, Option<string>, seq<(string, string)>, string, Option<bool>), m: map<FieldName, Value>) {
    OptStr(k.0) == (if TargetDisk in m then m[TargetDisk] else OptStr(Defaults.targetDisk))
    && VStr(k.1) == (if DiskMode in m then m[DiskMode] else VStr(Defaults.diskMode))
    && OptStr(k.2) == (if RootPartition in m then m[RootPartition] else OptStr(Defaults.rootPartition))
    && OptStr(k.3) == (if BootPartition in m then m[BootPartition] else OptStr(Defaults.bootPartition))
    && OptStr(k.4) == (if SwapPartition in m then m[SwapPartition] else OptStr(Defaults.swapPartition))
    && VDict(k.5) == (if FormatPartitions in m then m[FormatPartitions] else VDict(Defaults.formatPartitions))
    && VStr(k.6) == (if RootFs in m then m[RootFs] else VStr(Defaults.rootFs))
    && OptBool(k.7) == (if UseUefi in m then m[UseUefi] else OptBool(Defaults.useUefi))
  }

  predicate AccountDecoded(a: (Option<string>, Option<string>, Option<string>, Option<string>, Option<string>, bool), m: map<FieldName, Value>) {
    OptStr(a.0) == (if DesktopProfile in m then m[DesktopProfile] else OptStr(Defaults.desktopProfile))
    && OptStr(a.1) == (if Hostname in m then m[Hostname] else OptStr(Defaults.hostname))
    && OptStr(a.2) == (if Username in m then m[Username] else OptStr(Defaults.username))
    && OptStr(a.3) == (if RootPassword in m then m[RootPassword] else OptStr(Defaults.rootPassword))
    && OptStr(a.4) == (if UserPassword in m then m[UserPassword] else OptStr(Defaults.userPassword))
    && VBool(a.5) == (if UserIsSudoer in m then m[UserIsSudoer] else VBool(Defaults.userIsSudoer))
  }

  predicate BootDecoded(t: (string, string, string), m: map<FieldName, Value>) {
    VStr(t.0) == (if Bootloader in m then m[Bootloader] else VStr(Defaults.bootloader))
    && VStr(t.1) == (if Kernel in m then m[Kernel] else VStr(Defaults.kernel))
    && VStr(t.2) == (if NetworkMode in m then m[NetworkMode] else VStr(Defaults.networkMode))
  }

  lemma FromFieldsPartial(m: map<FieldName, Value>)
    requires AllFit(m)
    ensures FromFields(m).Success?
    ensures forall f :: Encode(FromFields(m).value, f) == Pick(m, f)
  {
    FromFieldsDecoded(m);
    var c := FromFields(m).value;
    forall f
      ensures Encode(c, f) == Pick(m, f)
    {
      DecodedEncode(c, m, f);
    }
  }

  lemma FromFieldsDecoded(m: map<FieldName, Value>)
    requires AllFit(m)
    ensures FromFields(m).Success? && Decoded(FromFields(m).value, m)
  {
    BuildFit(m); BuildFieldsPartial(m);
    DiskFit(m); DiskFieldsPartial(m);
    AccountFit(m); AccountFieldsPartial(m);
    BootFit(m); BootFieldsPartial(m);
    var b, k, a, t := BuildFields(m).value, DiskFields(m).value, AccountFields(m).value, BootFields(m).value;
    assert FromFields(m) == Success(InstallConfig(
      b.0, b.1, b.2, b.3, b.4, b.5, b.6,
      k.0, k.1, k.2, k.3, k.4, k.5, k.6, k.7,
      a.0, a.1, a.2, a.3, a.4, a.5,
      t.0, t.1, t.2));
  }

  lemma DecodedEncode(c: InstallConfig, m: map<FieldName, Value>, f: FieldName)
    requires Decoded(c, m)
    ensures Encode(c, f) == Pick(m, f)
  {
  }

  /** One reader per field type: a value of the right type, or none, is read without error
      and re-encodes to what `m` holds, or else to the default. */
  lemma IntFieldPick(m: map<FieldName, Value>, f: FieldName, default: int)
    requires f in m ==> m[f].VInt?
    ensures IntField(m, f, default).Success?
    ensures VInt(IntField(m, f, default).value) == if f in m then m[f] else VInt(default)
  {
  }

  lemma BoolFieldPick(m: map<FieldName, Value>, f: FieldName, default: bool)
    requires f in m ==> m[f].VBool?
    ensures BoolField(m, f, default).Success?
    ensures VBool(BoolField(m, f, default).value) == if f in m then m[f] else VBool(default)
  {
  }

  lemma StrFieldPick(m: map<FieldName, Value>, f: FieldName, default: string)
    requires f in m ==> m[f].VStr?
    ensures StrField(m, f, default).Success?
    ensures VStr(StrField(m, f, default).value) == if f in m then m[f] else VStr(default)
  {
  }

  lemma DictFieldPick(m: map<FieldName, Value>, f: FieldName, default: seq<(string, string)>)
    requires f in m ==> m[f].VDict?
    ensures DictField(m, f, default).Success?
    ensures VDict(DictField(m, f, default).value) == if f in m then m[f] else VDict(default)
  {
  }

  lemma OptIntFieldPick(m: map<FieldName, Value>, f: FieldName, default: Option<int>)
    requires f in m ==> m[f].VNone? || m[f].VInt?
    ensures OptIntField(m, f, default).Success?
    ensures OptInt(OptIntField(m, f, default).value) == if f in m then m[f] else OptInt(default)
  {
  }

  lemma OptBoolFieldPick(m: map<FieldName, Value>, f: FieldName, default: Option<bool>)
    requires f in m ==> m[f].VNone? || m[f].VBool?
    ensures OptBoolField(m, f, default).Success?
    ensures OptBool(OptBoolField(m, f, default).value) == if f in m then m[f] else OptBool(default)
  {
  }

  lemma OptStrFieldPick(m: map<FieldName, Value>, f: FieldName, default: Option<string>)
    requires f in m ==> m[f].VNone? || m[f].VStr?
    ensures OptStrField(m, f, default).Success?
    ensures OptStr(OptStrField(m, f, default).value) == if f in m then m[f] else OptStr(default)
  {
  }

  lemma BuildFieldsPartial(m: map<FieldName, Value>)
    requires SchemaVersion in m ==> m[SchemaVersion].VInt?
    requires Script in m ==> m[Script].VStr?
    requires Language in m ==> m[Language].VStr?
    requires Stage3Source in m ==> (m[Stage3Source].VNone? || m[Stage3Source].VStr?)
    requires MakeoptsJobs in m ==> (m[MakeoptsJobs].VNone? || m[MakeoptsJobs].VInt?)
    requires FeaturesParallelFetch in m ==> m[FeaturesParallelFetch].VBool?
    requires EmergeKeepGoing in m ==> m[EmergeKeepGoing].VBool?
    ensures BuildFields(m).Success?
    ensures BuildDecoded(BuildFields(m).value, m)
  {
    IntFieldPick(m, SchemaVersion, Defaults.schemaVersion);
    StrFieldPick(m, Script, Defaults.script);
    StrFieldPick(m, Language, Defaults.language);
    OptStrFieldPick(m, Stage3Source, Defaults.stage3Source);
    OptIntFieldPick(m, MakeoptsJobs, Defaults.makeoptsJobs);
    BoolFieldPick(m, FeaturesParallelFetch, Defaults.featuresParallelFetch);
    BoolFieldPick(m, EmergeKeepGoing, Defaults.emergeKeepGoing);
  }

  /** The build fields of a dictionary whose entries fit have the reader's type. */
  lemma BuildFit(m: map<FieldName, Value>)
    requires AllFit(m)
    ensures SchemaVersion in m ==> m[SchemaVersion].VInt?
    ensures Script in m ==> m[Script].VStr?
    ensures Language in m ==> m[Language].VStr?
    ensures Stage3Source in m ==> (m[Stage3Source].VNone? || m[Stage3Source].VStr?)
    ensures MakeoptsJobs in m ==> (m[MakeoptsJobs].VNone? || m[MakeoptsJobs].VInt?)
    ensures FeaturesParallelFetch in m ==> m[FeaturesParallelFetch].VBool?
    ensures EmergeKeepGoing in m ==> m[EmergeKeepGoing].VBool?
  {
    assert SchemaVersion in m ==> m[SchemaVersion].VInt?;
    assert Script in m ==> m[Script].VStr?;
    assert Language in m ==> m[Language].VStr?;
    assert Stage3Source in m ==> (m[Stage3Source].VNone? || m[Stage3Source].VStr?);
    assert MakeoptsJobs in m ==> (m[MakeoptsJobs].VNone? || m[MakeoptsJobs].VInt?);
    assert FeaturesParallelFetch in m ==> m[FeaturesParallelFetch].VBool?;
    assert EmergeKeepGoing in m ==> m[EmergeKeepGoing].VBool?;
  }

  lemma DiskFieldsPartial(m: map<FieldName, Value>)
    requires TargetDisk in m ==> (m[TargetDisk].VNone? || m[TargetDisk].VStr?)
    requires DiskMode in m ==> m[DiskMode].VStr?
    requires RootPartition in m ==> (m[RootPartition].VNone? || m[RootPartition].VStr?)
    requires BootPartition in m ==> (m[BootPartition].VNone? || m[BootPartition].VStr?)
    requires SwapPartition in m ==> (m[SwapPartition].VNone? || m[SwapPartition].VStr?)
    requires FormatPartitions in m ==> m[FormatPartitions].VDict?
    requires RootFs in m ==> m[RootFs].VStr?
    requires UseUefi in m ==> (m[UseUefi].VNone? || m[UseUefi].VBool?)
    ensures DiskFields(m).Success?
    ensures DiskDecoded(DiskFields(m).value, m)
  {
    OptStrFieldPick(m, TargetDisk, Defaults.targetDisk);
    StrFieldPick(m, DiskMode, Defaults.diskMode);
    OptStrFieldPick(m, RootPartition, Defaults.rootPartition);
    OptStrFieldPick(m, BootPartition, Defaults.bootPartition);
    OptStrFieldPick(m, SwapPartition, Defaults.swapPartition);
    DictFieldPick(m, FormatPartitions, Defaults.formatPartitions);
    StrFieldPick(m, RootFs, Defaults.rootFs);
    OptBoolFieldPick(m, UseUefi, Defaults.useUefi);
  }

  /** The disk fields of a dictionary whose entries fit have the reader's type. */
  lemma DiskFit(m: map<FieldName, Value>)
    requires AllFit(m)
    ensures TargetDisk in m ==> (m[TargetDisk].VNone? || m[TargetDisk].VStr?)
    ensures DiskMode in m ==> m[DiskMode].VStr?
    ensures RootPartition in m ==> (m[RootPartition].VNone? || m[RootPartition].VStr?)
    ensures BootPartition in m ==> (m[BootPartition].VNone? || m[BootPartition].VStr?)
    ensures SwapPartition in m ==> (m[SwapPartition].VNone? || m[SwapPartition].VStr?)
    ensures FormatPartitions in m ==> m[FormatPartitions].VDict?
    ensures RootFs in m ==> m[RootFs].VStr?
    ensures UseUefi in m ==> (m[UseUefi].VNone? || m[UseUefi].VBool?)
  {
    assert TargetDisk in m ==> (m[TargetDisk].VNone? || m[TargetDisk].VStr?);
    assert DiskMode in m ==> m[DiskMode].VStr?;
    assert RootPartition in m ==> (m[RootPartition].VNone? || m[RootPartition].VStr?);
    assert BootPartition in m ==> (m[BootPartition].VNone? || m[BootPartition].VStr?);
    assert SwapPartition in m ==> (m[SwapPartition].VNone? || m[SwapPartition].VStr?);
    assert FormatPartitions in m ==> m[FormatPartitions].VDict?;
    assert RootFs in m ==> m[RootFs].VStr?;
    assert UseUefi in m ==> (m[UseUefi].VNone? || m[UseUefi].VBool?);
  }

  lemma AccountFieldsPartial(m: map<FieldName, Value>)
    requires DesktopProfile in m ==> (m[DesktopProfile].VNone? || m[DesktopProfile].VStr?)
    requires Hostname in m ==> (m[Hostname].VNone? || m[Hostname].VStr?)
    requires Username in m ==> (m[Username].VNone? || m[Username].VStr?)
    requires RootPassword in m ==> (m[RootPassword].VNone? || m[RootPassword].VStr?)
    requires UserPassword in m ==> (m[UserPassword].VNone? || m[UserPassword].VStr?)
    requires UserIsSudoer in m ==> m[UserIsSudoer].VBool?
    ensures AccountFields(m).Success?
    ensures AccountDecoded(AccountFields(m).value, m)
  {
    OptStrFieldPick(m, DesktopProfile, Defaults.desktopProfile);
    OptStrFieldPick(m, Hostname, Defaults.hostname);
    OptStrFieldPick(m, Username, Defaults.username);
    OptStrFieldPick(m, RootPassword, Defaults.rootPassword);
    OptStrFieldPick(m, UserPassword, Defaults.userPassword);
    BoolFieldPick(m, UserIsSudoer, Defaults.userIsSudoer);
  }

  /** The account fields of a dictionary whose entries fit have the reader's type. */
  lemma AccountFit(m: map<FieldName, Value>)
    requires AllFit(m)
    ensures DesktopProfile in m ==> (m[DesktopProfile].VNone? || m[DesktopProfile].VStr?)
    ensures Hostname in m ==> (m[Hostname].VNone? || m[Hostname].VStr?)
    ensures Username in m ==> (m[Username].VNone? || m[Username].VStr?)
    ensures RootPassword in m ==> (m[RootPassword].VNone? || m[RootPassword].VStr?)
    ensures UserPassword in m ==> (m[UserPassword].VNone? || m[UserPassword].VStr?)
    ensures UserIsSudoer in m ==> m[UserIsSudoer].VBool?
  {
    assert DesktopProfile in m ==> (m[DesktopProfile].VNone? || m[DesktopProfile].VStr?);
    assert Hostname in m ==> (m[Hostname].VNone? || m[Hostname].VStr?);
    assert Username in m ==> (m[Username].VNone? || m[Username].VStr?);
    assert RootPassword in m ==> (m[RootPassword].VNone? || m[RootPassword].VStr?);
    assert UserPassword in m ==> (m[UserPassword].VNone? || m[UserPassword].VStr?);
    assert UserIsSudoer in m ==> m[UserIsSudoer].VBool?;
  }

  lemma BootFieldsPartial(m: map<FieldName, Value>)
    requires Bootloader in m ==> m[Bootloader].VStr?
    requires Kernel in m ==> m[Kernel].VStr?
    requires NetworkMode in m ==> m[NetworkMode].VStr?
    ensures BootFields(m).Success?
    ensures BootDecoded(BootFields(m).value, m)
  {
    StrFieldPick(m, Bootloader, Defaults.bootloader);
    StrFieldPick(m, Kernel, Defaults.kernel);
    StrFieldPick(m, NetworkMode, Defaults.networkMode);
  }

  /** The boot fields of a dictionary whose entries fit have the reader's type. */
  lemma BootFit(m: map<FieldName, Value>)
    requires AllFit(m)
    ensures Bootloader in m ==> m[Bootloader].VStr?
    ensures Kernel in m ==> m[Kernel].VStr?
    ensures NetworkMode in m ==> m[NetworkMode].VStr?
  {
    assert Bootloader in m ==> m[Bootloader].VStr?;
    assert Kernel in m ==> m[Kernel].VStr?;
    assert NetworkMode in m ==> m[NetworkMode].VStr?;
  }

  // ---------------------------------------------------------------------------
  // Credentials dictionary

  /** `save_credentials_from_config`'s payload: only the passwords that are set. */
  function CredentialsToDict(c: InstallConfig): (d: map<string, Value>)
    ensures d.Keys <= {Name(RootPassword), Name(UserPassword)}
    ensures Name(RootPassword) in d <==> c.rootPassword.Some?
    ensures Name(UserPassword) in d <==> c.userPassword.Some?
  {
    var r := if c.rootPassword.Some? then map[Name(RootPassword) := VStr(c.rootPassword.value)] else map[];
    var u := if c.userPassword.Some? then map[Name(UserPassword) := VStr(c.userPassword.value)] else map[];
    r + u
  }

  /** Each password key present holds a string or `null`. */
  predicate PasswordsFit(data: map<string, Value>) {
    && (Name(RootPassword) in data ==> data[Name(RootPassword)].VStr? || data[Name(RootPassword)].VNone?)
    && (Name(UserPassword) in data ==> data[Name(UserPassword)].VStr? || data[Name(UserPassword)].VNone?)
  }

  /** The password after loading: kept when its key is absent, the string when one is given,
      and `None` for `null`. */
  function Loaded(data: map<string, Value>, f: FieldName, current: Option<string>): Option<string> {
    if Name(f) !in data then current
    else if data[Name(f)].VStr? then Some(data[Name(f)].s)
    else None
  }

  /** `load_credentials_into_config`: overwrite each password whose key is present. */
  function LoadCredentials(c: InstallConfig, data: map<string, Value>): (r: Result<InstallConfig, DictError>)
    ensures r.Failure? ==> r.error.key in data
    ensures r.Success? ==> r.value.(rootPassword := c.rootPassword, userPassword := c.userPassword) == c
    ensures Name(RootPassword) !in data && Name(UserPassword) !in data ==> r == Success(c)
    ensures r.Success? && Name(RootPassword) in data && data[Name(RootPassword)].VStr? ==>
      r.value.rootPassword == Some(data[Name(RootPassword)].s)
    ensures r.Success? && Name(UserPassword) in data && data[Name(UserPassword)].VStr? ==>
      r.value.userPassword == Some(data[Name(UserPassword)].s)
    ensures PasswordsFit(data) ==>
      && r.Success?
      && r.value.rootPassword == Loaded(data, RootPassword, c.rootPassword)
      && r.value.userPassword == Loaded(data, UserPassword, c.userPassword)
  {
    var known := Known(data);
    var rootPassword :- OptStrField(known, RootPassword, c.rootPassword);
    var userPassword :- OptStrField(known, UserPassword, c.userPassword);
    Success(c.(rootPassword := rootPassword, userPassword := userPassword))
  }

  /** Each password reads back from the credentials payload as it was saved. */
  lemma CredentialFields(c: InstallConfig)
    ensures OptStrField(Known(CredentialsToDict(c)), RootPassword, None) == Success(c.rootPassword)
    ensures OptStrField(Known(CredentialsToDict(c)), UserPassword, None) == Success(c.userPassword)
  {
    var data := CredentialsToDict(c);
    assert Name(RootPassword) != Name(UserPassword);
    if c.rootPassword.Some? {
      assert data[Name(RootPassword)] == VStr(c.rootPassword.value);
    }
    if c.userPassword.Some? {
      assert data[Name(UserPassword)] == VStr(c.userPassword.value);
    }
  }

  /** Storing layout and secrets separately and loading both back restores the config. */
  lemma SplitStorageRoundTrip(c: InstallConfig)
    ensures FromDict(ToDict(c)).Success?
    ensures LoadCredentials(FromDict(ToDict(c)).value, CredentialsToDict(c)) == Success(c)
  {
    FromDictToDict(c);
    CredentialFields(c);
  }
}
