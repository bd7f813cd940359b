/**
 * The state of an `imageProcessor` object as a value, and the effect of
 * each setter, of `setOptions`, of the two checks and of `process` on it.
 * The class in processor.dfy keeps the same fields and is proved to change
 * them exactly as the step functions here say.
 */
module Settings {
  import opened Wrappers
  import opened Php
  import opened Inputs
  import opened Geometry

  /** What `getimagesize` reports for a readable image: width, height and IMAGETYPE constant. */
  datatype ImageInfo = ImageInfo(width: int, height: int, typeCode: int)

  /**
   * The filesystem as the processor queries it: the existing files, the
   * existing directories, and the files `getimagesize` can read.
   */
  datatype FileSystem = FileSystem(files: set<string>, dirs: set<string>, images: map<string, ImageInfo>)
  {
    /** No entry has the empty path, and every readable image is a file of positive size. */
    predicate Wf()
    {
      "" !in files && "" !in dirs &&
      forall p :: p in images ==> p in files && images[p].width > 0 && images[p].height > 0
    }

    /** `file_exists`, which holds for directories too. */
    predicate FileExists(p: string) { p in files || p in dirs }

    /** `is_dir`. */
    predicate IsDir(p: string) { p in dirs }
  }

  /** The required properties, named as `checkRequiredProperties` reports them. */
  datatype Field = InputPathField | FolderField | FileNameField | WidthField | HeightField

  /** The exceptions the object raises, with what their messages carry. */
  datatype Error =
    | InvalidBoolean(value: Value)              // allowOverwrite
    | InputFileMissing(path: string)            // setInputPath
    | UnreadableImage(path: string)             // getimagesize gave no size
    | UnrecognisedImageType(code: int)          // setInputType
    | InvalidHeight(value: Value)               // setHeight
    | InvalidWidth(value: Value)                // setWidth
    | FolderMissing(path: string)               // setFolder
    | InvalidFileExtension(fileName: string)    // setFileName
    | InvalidQuality(value: Value)              // setQuality
    | InvalidMethod(value: Value)               // setMethod
    | UnknownKeys(keys: seq<string>)            // setOptions
    | MissingProperties(fields: seq<Field>)     // checkRequiredProperties
    | FileExists(fileName: string)              // checkOverwrite
    | InvalidInputType                          // returnInputResourse
    | DecodeFailed(path: string)                // GD could not decode the input (raised later, by imagecopyresampled)

  /** Whether a call returned normally or raised an error. */
  datatype Status = Pass | Fail(error: Error)

  /** The private fields of an `imageProcessor` object. NULL is None. */
  datatype Config = Config(
    inputPath: Option<string>,
    inputType: Option<ImageType>,
    inputWidth: int,
    inputHeight: int,
    inputRatio: real,
    folder: Option<string>,
    fileName: Option<string>,
    quality: int,
    policy: Method,            // `method`
    overwrite: bool,
    width: Option<int>,
    height: Option<int>,
    ratio: real)
  {
    /**
     * The object invariant: target sides are positive, `ratio` is
     * `width/height` once both are set and 0 before, the quality is a
     * percentage, and the source ratio matches the probed size.
     */
    predicate Valid()
    {
      (width.Some? ==> width.value >= 1) && (height.Some? ==> height.value >= 1) &&
      ratio == RatioOf(width, height) &&
      0 <= quality <= 100 &&
      inputWidth >= 0 && inputHeight >= 0 && (inputWidth == 0 <==> inputHeight == 0) &&
      (inputHeight > 0 ==> inputRatio == inputWidth as real / inputHeight as real) &&
      (inputPath.None? ==> inputWidth == 0 && inputType.None?)
    }
  }

  /** The field values a new object starts with. */
  function Initial(): Config
  {
    Config(None, None, 0, 0, 0.0, None, None, 75, Fit, false, None, None, 0.0)
  }

  /** PHP truthiness of an optional integer: set and non-zero. */
  predicate Truthy(x: Option<int>) { x.Some? && x.value != 0 }

  /** The ratio `setRatio` derives; 0 (the initial value) while a side is missing. */
  function RatioOf(width: Option<int>, height: Option<int>): real
  {
    if Truthy(width) && Truthy(height) then width.value as real / height.value as real else 0.0
  }

  /** `setRatio`: recompute `ratio` when both sides are set, otherwise keep it. */
  function SetRatio(c: Config): Config
  {
    if Truthy(c.width) && Truthy(c.height) then c.(ratio := c.width.value as real / c.height.value as real)
    else c
  }

  /** The new fields and the outcome of one call. */
  datatype Step = Step(after: Config, status: Status)

  // ---------------------------------------------------------------------
  // setters

  function AllowOverwrite(c: Config, v: Value): Step
  {
    match InputToBoolean(v)
    case Some(b) => Step(c.(overwrite := b), Pass)
    case None => Step(c, Fail(InvalidBoolean(v)))
  }

  /** `setInputPath`: the path must exist; it is stored before the image is probed. */
  function SetInputPath(c: Config, v: Value, fs: FileSystem): Step
    requires fs.Wf()
  {
    var p := StringOf(v);
    if !fs.FileExists(p) then Step(c, Fail(InputFileMissing(p)))
    else SetInputProperties(c.(inputPath := Some(p)), p, fs)
  }

  /**
   * `setInputProperties`: size and ratio are stored before the type is
   * checked, so an unrecognised type leaves them updated. A file
   * `getimagesize` cannot read leaves both sizes NULL (0 here) and raises
   * before the ratio is assigned.
   */
  function SetInputProperties(c: Config, p: string, fs: FileSystem): Step
    requires fs.Wf()
  {
    if p !in fs.images then Step(c.(inputWidth := 0, inputHeight := 0), Fail(UnreadableImage(p)))
    else
      var info := fs.images[p];
      var sized := c.(inputWidth := info.width, inputHeight := info.height,
                      inputRatio := info.width as real / info.height as real);
      SetInputType(sized, info.typeCode)
  }

  function SetInputType(c: Config, code: int): Step
  {
    match TypeOfCode(code)
    case Some(t) => Step(c.(inputType := Some(t)), Pass)
    case None => Step(c, Fail(UnrecognisedImageType(code)))
  }

  function SetHeight(c: Config, v: Value): Step
  {
    var i := InputToInteger(v);
    if i.None? || i.value < 1 then Step(c, Fail(InvalidHeight(v)))
    else Step(SetRatio(c.(height := i)), Pass)
  }

  function SetWidth(c: Config, v: Value): Step
  {
    var i := InputToInteger(v);
    if i.None? || i.value < 1 then Step(c, Fail(InvalidWidth(v)))
    else Step(SetRatio(c.(width := i)), Pass)
  }

  function SetFolder(c: Config, v: Value, fs: FileSystem): Step
  {
    var p := StringOf(v);
    if !fs.IsDir(p) then Step(c, Fail(FolderMissing(p)))
    else Step(c.(folder := Some(p)), Pass)
  }

  function SetFileName(c: Config, v: Value): Step
  {
    if !FileNameAccepted(v) then Step(c, Fail(InvalidFileExtension(StringOf(v))))
    else Step(c.(fileName := Some(StringOf(v))), Pass)
  }

  function SetQuality(c: Config, v: Value): Step
  {
    var i := InputToInteger(v);
    if i.None? || i.value < 0 || i.value > 100 then Step(c, Fail(InvalidQuality(v)))
    else Step(c.(quality := i.value), Pass)
  }

  function SetMethod(c: Config, v: Value): Step
  {
    match MethodOf(v)
    case Some(m) => Step(c.(policy := m), Pass)
    case None => Step(c, Fail(InvalidMethod(v)))
  }

  // ---------------------------------------------------------------------
  // setOptions

  /** The option keys `setOptions` knows, in the order it applies them. */
  datatype Key = OverwriteKey | InputPathKey | WidthKey | HeightKey | FolderKey | FileNameKey | QualityKey | MethodKey

  function KeyName(k: Key): string
  {
    match k
    case OverwriteKey => "overwrite"
    case InputPathKey => "input_path"
    case WidthKey => "width"
    case HeightKey => "height"
    case FolderKey => "folder"
    case FileNameKey => "file_name"
    case QualityKey => "quality"
    case MethodKey => "method"
  }

  const KnownOrder: seq<Key> := [OverwriteKey, InputPathKey, WidthKey, HeightKey, FolderKey, FileNameKey, QualityKey, MethodKey]

  const KnownNames: set<string> := {"overwrite", "input_path", "width", "height", "folder", "file_name", "quality", "method"}

  function NamesOf(order: seq<Key>): set<string>
  {
    set k | k in order :: KeyName(k)
  }

  /** The setter a known key is handed to. */
  function Apply(c: Config, k: Key, v: Value, fs: FileSystem): Step
    requires fs.Wf()
  {
    match k
    case OverwriteKey => AllowOverwrite(c, v)
    case InputPathKey => SetInputPath(c, v, fs)
    case WidthKey => SetWidth(c, v)
    case HeightKey => SetHeight(c, v)
    case FolderKey => SetFolder(c, v, fs)
    case FileNameKey => SetFileName(c, v)
    case QualityKey => SetQuality(c, v)
    case MethodKey => SetMethod(c, v)
  }

  /** A PHP array of options: an ordered map from key to value. */
  type Options = seq<(string, Value)>

  /** `array_key_exists` and `$array[$key]`. */
  function Lookup(opts: Options, name: string): Option<Value>
  {
    if opts == [] then None
    else if opts[0].0 == name then Some(opts[0].1)
    else Lookup(opts[1..], name)
  }

  /** The entries whose key is not in `names`, in their order (`unset`). */
  function Without(opts: Options, names: set<string>): Options
  {
    if opts == [] then []
    else if opts[0].0 in names then Without(opts[1..], names)
    else [opts[0]] + Without(opts[1..], names)
  }

  /** The entries whose key is in `names`, in their order. */
  function Only(opts: Options, names: set<string>): Options
  {
    if opts == [] then []
    else if opts[0].0 in names then [opts[0]] + Only(opts[1..], names)
    else Only(opts[1..], names)
  }

  /** The keys of the entries, in their order (the `foreach` over what is left). */
  function KeysOf(opts: Options): seq<string>
  {
    seq(|opts|, i requires 0 <= i < |opts| => opts[i].0)
  }

  /** The keys `setOptions` does not know, in the order they were given. */
  function UnknownKeysOf(opts: Options): seq<string>
  {
    KeysOf(Without(opts, KnownNames))
  }

  /** Where `setOptions` stands: the fields so far, the options not yet unset, and whether a setter raised. */
  datatype Progress = Progress(cfg: Config, rest: Options, status: Status)

  /** One `if (array_key_exists(...)) { setter; unset }` block of `setOptions`. */
  function ApplyKey(p: Progress, k: Key, fs: FileSystem): Progress
    requires fs.Wf()
  {
    if p.status.Fail? then p
    else
      match Lookup(p.rest, KeyName(k))
      case None => p
      case Some(v) =>
        var s := Apply(p.cfg, k, v, fs);
        if s.status.Fail? then Progress(s.after, p.rest, s.status)
        else Progress(s.after, Without(p.rest, {KeyName(k)}), Pass)
  }

  function ApplyAll(p: Progress, order: seq<Key>, fs: FileSystem): Progress
    requires fs.Wf()
    decreases |order|
  {
    if order == [] then p else ApplyAll(ApplyKey(p, order[0], fs), order[1..], fs)
  }

  /** `setOptions`: the known keys in their fixed order, then one error naming every key left. */
  function SetOptions(c: Config, opts: Options, fs: FileSystem): Step
    requires fs.Wf()
  {
    var p := ApplyAll(Progress(c, opts, Pass), KnownOrder, fs);
    if p.status.Fail? then Step(p.cfg, p.status)
    else if |p.rest| > 0 then Step(p.cfg, Fail(UnknownKeys(KeysOf(p.rest))))
    else Step(p.cfg, Pass)
  }

  // ---------------------------------------------------------------------
  // checks and process

  /** The required properties in the order `checkRequiredProperties` tests them. */
  const RequiredOrder: seq<Field> := [InputPathField, FolderField, FileNameField, WidthField, HeightField]

  predicate IsUnset(c: Config, f: Field)
  {
    match f
    case InputPathField => c.inputPath.None?
    case FolderField => c.folder.None?
    case FileNameField => c.fileName.None?
    case WidthField => c.width.None?
    case HeightField => c.height.None?
  }

  /** The fields of `fields` that are unset in `c`, in their order. */
  function UnsetAmong(c: Config, fields: seq<Field>): seq<Field>
  {
    if fields == [] then []
    else if IsUnset(c, fields[0]) then [fields[0]] + UnsetAmong(c, fields[1..])
    else UnsetAmong(c, fields[1..])
  }

  function MissingFields(c: Config): seq<Field>
  {
    UnsetAmong(c, RequiredOrder)
  }

  function CheckRequiredProperties(c: Config): Status
  {
    if MissingFields(c) == [] then Pass else Fail(MissingProperties(MissingFields(c)))
  }

  function OrEmpty(s: Option<string>): string
  {
    if s.Some? then s.value else ""
  }

  /** `folder/file_name`, where the result is written. */
  function Destination(c: Config): string
  {
    OrEmpty(c.folder) + "/" + OrEmpty(c.fileName)
  }

  function CheckOverwrite(c: Config, fs: FileSystem): Status
  {
    if !c.overwrite && fs.FileExists(Destination(c)) then Fail(FileExists(OrEmpty(c.fileName)))
    else Pass
  }

  /**
   * `returnInputResourse`: no stored type raises (its `default` case).
   * Otherwise the outcome is the model's decode predicate: the input path
   * is an image of the stored type whose size was probed. GD's
   * `imagecreatefrom*` returns false instead of raising, and PHP 8 raises
   * only later, in `imagecopyresampled`; `DecodeFailed` stands for that.
   */
  function ReturnInputResource(c: Config, fs: FileSystem): Status
  {
    var p := OrEmpty(c.inputPath);
    if c.inputType.None? then Fail(InvalidInputType)
    else if c.inputHeight > 0 && p in fs.images && TypeOfCode(fs.images[p].typeCode) == c.inputType then Pass
    else Fail(DecodeFailed(p))
  }

  /** `process` up to the resampling: the checks in order, then the plan. */
  function ProcessPlan(c: Config, fs: FileSystem): Result<ResamplePlan, Error>
    requires c.Valid()
  {
    var required := CheckRequiredProperties(c);
    if required.Fail? then Failure(required.error)
    else
      var overwrite := CheckOverwrite(c, fs);
      if overwrite.Fail? then Failure(overwrite.error)
      else
        var decoded := ReturnInputResource(c, fs);
        if decoded.Fail? then Failure(decoded.error)
        else
          MissingFieldsExact(c);
          Success(Plan(c.inputWidth, c.inputHeight, c.width.value, c.height.value, c.policy))
  }

  // ---------------------------------------------------------------------
  // checkRequiredProperties: every missing field, in the fixed order

  /** The position of a field in `checkRequiredProperties`. */
  function Rank(f: Field): nat
  {
    match f
    case InputPathField => 0
    case FolderField => 1
    case FileNameField => 2
    case WidthField => 3
    case HeightField => 4
  }

  predicate Ascending(fields: seq<Field>)
  {
    forall i, j :: 0 <= i < j < |fields| ==> Rank(fields[i]) < Rank(fields[j])
  }

  lemma {:induction false} UnsetAmongExact(c: Config, fields: seq<Field>)
    ensures forall f :: f in UnsetAmong(c, fields) <==> f in fields && IsUnset(c, f)
    ensures Ascending(fields) ==> Ascending(UnsetAmong(c, fields))
    decreases |fields|
  {
    if fields != [] {
      UnsetAmongExact(c, fields[1..]);
      var tail := UnsetAmong(c, fields[1..]);
      if Ascending(fields) && IsUnset(c, fields[0]) {
        assert Ascending(fields[1..]);
        forall k | 0 <= k < |tail| ensures Rank(fields[0]) < Rank(tail[k]) {
          assert tail[k] in fields[1..];
        }
      }
    }
  }

  /**
   * `checkRequiredProperties` lists exactly the unset required fields, each
   * once, in the order input path, folder, file name, width, height.
   */
  lemma MissingFieldsExact(c: Config)
    ensures forall f :: f in MissingFields(c) <==> IsUnset(c, f)
    ensures Ascending(MissingFields(c))
    ensures MissingFields(c) == [] <==> c.inputPath.Some? && c.folder.Some? && c.fileName.Some? && c.width.Some? && c.height.Some?
  {
    UnsetAmongExact(c, RequiredOrder);
    forall f: Field ensures f in RequiredOrder {
      assert f == RequiredOrder[Rank(f)];
    }
    if MissingFields(c) != [] {
      assert MissingFields(c)[0] in MissingFields(c);
    } else {
      assert !IsUnset(c, InputPathField) && !IsUnset(c, FolderField) && !IsUnset(c, FileNameField);
      assert !IsUnset(c, WidthField) && !IsUnset(c, HeightField);
    }
  }

  /** `checkRequiredProperties` raises exactly when a required field is unset, and names all of them. */
  lemma CheckRequiredPropertiesExact(c: Config)
    ensures CheckRequiredProperties(c).Fail? <==> exists f :: IsUnset(c, f)
    ensures CheckRequiredProperties(c).Fail? ==>
      CheckRequiredProperties(c).error.MissingProperties? &&
      forall f :: f in CheckRequiredProperties(c).error.fields <==> IsUnset(c, f)
  {
    MissingFieldsExact(c);
    var m := MissingFields(c);
    if m != [] {
      assert m[0] in m;
    }
  }

  /** One test of `checkRequiredProperties`: `a` grows by the first field if it is unset. */
  lemma UnsetAmongStep(c: Config, a: seq<Field>, fields: seq<Field>, next: seq<Field>)
    requires fields != []
    requires next == if IsUnset(c, fields[0]) then a + [fields[0]] else a
    ensures next + UnsetAmong(c, fields[1..]) == a + UnsetAmong(c, fields)
  {
    if IsUnset(c, fields[0]) {
      assert UnsetAmong(c, fields) == [fields[0]] + UnsetAmong(c, fields[1..]);
    }
  }
}
