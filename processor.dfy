/**
 * The `imageProcessor` class: private fields updated in place by the
 * setters, `setOptions`, the two checks and `process` up to the point where
 * the resampling plan is handed to the image library. Each method is
 * proved to change the fields exactly as the matching step function of
 * module Settings says; `process` computes its plan with the float
 * expressions of the source (as exact reals) and is proved to agree with
 * the integer planner Geometry.Plan.
 */
module Processor {
  import opened Wrappers
  import opened Php
  import opened Inputs
  import opened Geometry
  import opened Settings
  import SettingsProperties

  /** The `foreach` of `setOptions` that lists the keys left over. */
  method CollectKeys(rest: Options) returns (list: seq<string>)
    ensures |list| == |rest|
    ensures forall i :: 0 <= i < |rest| ==> list[i] == rest[i].0
  {
    list := [];
    var i := 0;
    while i < |rest|
      invariant 0 <= i <= |rest|
      invariant |list| == i
      invariant forall j :: 0 <= j < i ==> list[j] == rest[j].0
    {
      list := list + [rest[i].0];
      i := i + 1;
    }
  }

  class ImageProcessor {
    var inputPath: Option<string>
    var inputType: Option<ImageType>
    var inputWidth: int
    var inputHeight: int
    var inputRatio: real
    var folder: Option<string>
    var fileName: Option<string>
    var quality: int
    var policy: Method          // `method`
    var overwrite: bool
    var width: Option<int>
    var height: Option<int>
    var ratio: real

    /** The fields as a value. */
    function State(): Config
      reads this
    {
      Config(inputPath, inputType, inputWidth, inputHeight, inputRatio, folder, fileName,
             quality, policy, overwrite, width, height, ratio)
    }

    predicate Valid()
      reads this
    {
      State().Valid()
    }

    constructor ()
      ensures State() == Initial() && Valid()
    {
      inputPath, inputType, inputWidth, inputHeight, inputRatio := None, None, 0, 0, 0.0;
      folder, fileName, quality := None, None, 75;
      policy, overwrite := Fit, false;
      width, height, ratio := None, None, 0.0;
    }

    /** `setRatio`. */
    method SetRatio()
      modifies this
      ensures State() == Settings.SetRatio(old(State()))
    {
      if Truthy(width) && Truthy(height) {
        ratio := width.value as real / height.value as real;
      }
    }

    method AllowOverwrite(v: Value) returns (status: Status)
      requires Valid()
      modifies this
      ensures Valid()
      ensures Step(State(), status) == Settings.AllowOverwrite(old(State()), v)
    {
      var b := InputToBoolean(v);
      if b.None? {
        return Fail(InvalidBoolean(v));
      }
      overwrite := b.value;
      return Pass;
    }

    method SetInputPath(v: Value, fs: FileSystem) returns (status: Status)
      requires Valid() && fs.Wf()
      modifies this
      ensures Valid()
      ensures Step(State(), status) == Settings.SetInputPath(old(State()), v, fs)
    {
      var path := StringOf(v);
      if !fs.FileExists(path) {
        return Fail(InputFileMissing(path));
      }
      inputPath := Some(path);
      status := SetInputProperties(fs);
    }

    /** `setInputProperties`, with `getimagesize` answered by `fs`. */
    method SetInputProperties(fs: FileSystem) returns (status: Status)
      requires fs.Wf() && inputPath.Some?
      requires State().(inputPath := None, inputWidth := 0, inputHeight := 0, inputType := None).Valid()
      modifies this
      ensures Valid()
      ensures Step(State(), status) == Settings.SetInputProperties(old(State()), old(inputPath.value), fs)
    {
      var path := inputPath.value;
      if path !in fs.images {
        inputWidth, inputHeight := 0, 0;
        return Fail(UnreadableImage(path));
      }
      var info := fs.images[path];
      inputWidth := info.width;
      inputHeight := info.height;
      inputRatio := info.width as real / info.height as real;
      status := SetInputType(info.typeCode);
    }

    /** `setInputType`'s switch over the IMAGETYPE constants. */
    method SetInputType(code: int) returns (status: Status)
      modifies this
      ensures Step(State(), status) == Settings.SetInputType(old(State()), code)
    {
      var t: ImageType;
      if code == 1 {
        t := Gif;
      } else if code == 2 {
        t := Jpg;
      } else if code == 3 {
        t := Png;
      } else {
        return Fail(UnrecognisedImageType(code));
      }
      inputType := Some(t);
      return Pass;
    }

    method SetHeight(v: Value) returns (status: Status)
      requires Valid()
      modifies this
      ensures Valid()
      ensures Step(State(), status) == Settings.SetHeight(old(State()), v)
    {
      var i := InputToInteger(v);
      if i.None? || i.value < 1 {
        return Fail(InvalidHeight(v));
      }
      height := i;
      SetRatio();
      return Pass;
    }

    method SetWidth(v: Value) returns (status: Status)
      requires Valid()
      modifies this
      ensures Valid()
      ensures Step(State(), status) == Settings.SetWidth(old(State()), v)
    {
      var i := InputToInteger(v);
      if i.None? || i.value < 1 {
        return Fail(InvalidWidth(v));
      }
      width := i;
      SetRatio();
      return Pass;
    }

    /** `setFolder`, with `is_dir` answered by `fs`. */
    method SetFolder(v: Value, fs: FileSystem) returns (status: Status)
      requires Valid()
      modifies this
      ensures Valid()
      ensures Step(State(), status) == Settings.SetFolder(old(State()), v, fs)
    {
      var path := StringOf(v);
      if !fs.IsDir(path) {
        return Fail(FolderMissing(path));
      }
      folder := Some(path);
      return Pass;
    }

    method SetFileName(v: Value) returns (status: Status)
      requires Valid()
      modifies this
      ensures Valid()
      ensures Step(State(), status) == Settings.SetFileName(old(State()), v)
    {
      var name := StringOf(v);
      var extension := LastPiece(name, '.');
      if extension != "jpg" {
        return Fail(InvalidFileExtension(name));
      }
      fileName := Some(name);
      return Pass;
    }

    method SetQuality(v: Value) returns (status: Status)
      requires Valid()
      modifies this
      ensures Valid()
      ensures Step(State(), status) == Settings.SetQuality(old(State()), v)
    {
      var i := InputToInteger(v);
      if i.None? || i.value < 0 || i.value > 100 {
        return Fail(InvalidQuality(v));
      }
      quality := i.value;
      return Pass;
    }

    method SetMethod(v: Value) returns (status: Status)
      requires Valid()
      modifies this
      ensures Valid()
      ensures Step(State(), status) == Settings.SetMethod(old(State()), v)
    {
      var m := MethodOf(v);
      if m.None? {
        return Fail(InvalidMethod(v));
      }
      policy := m.value;
      return Pass;
    }

    /** One `array_key_exists` block of `setOptions`: apply the key's setter, then unset the key. */
    method ApplyKnownKey(k: Key, rest: Options, fs: FileSystem) returns (status: Status, left: Options)
      requires Valid() && fs.Wf()
      modifies this
      ensures Valid()
      ensures Progress(State(), left, status) == ApplyKey(Progress(old(State()), rest, Pass), k, fs)
    {
      status, left := Pass, rest;
      var v := Lookup(rest, KeyName(k));
      if v.Some? {
        match k {
          case OverwriteKey => status := AllowOverwrite(v.value);
          case InputPathKey => status := SetInputPath(v.value, fs);
          case WidthKey => status := SetWidth(v.value);
          case HeightKey => status := SetHeight(v.value);
          case FolderKey => status := SetFolder(v.value, fs);
          case FileNameKey => status := SetFileName(v.value);
          case QualityKey => status := SetQuality(v.value);
          case MethodKey => status := SetMethod(v.value);
        }
        if status.Pass? {
          left := Without(rest, {KeyName(k)});
        }
      }
    }

    /** `setOptions`: the known keys in their fixed order, then the unknown ones reported together. */
    method SetOptions(opts: Options, fs: FileSystem) returns (status: Status)
      requires Valid() && fs.Wf()
      modifies this
      ensures Valid()
      ensures Step(State(), status) == Settings.SetOptions(old(State()), opts, fs)
    {
      SettingsProperties.KnownOrderSteps(Progress(State(), opts, Pass), fs);
      var rest := opts;
      status, rest := ApplyKnownKey(OverwriteKey, rest, fs);
      if status.Fail? {
        return;
      }
      status, rest := ApplyKnownKey(InputPathKey, rest, fs);
      if status.Fail? {
        return;
      }
      status, rest := ApplyKnownKey(WidthKey, rest, fs);
      if status.Fail? {
        return;
      }
      status, rest := ApplyKnownKey(HeightKey, rest, fs);
      if status.Fail? {
        return;
      }
      status, rest := ApplyKnownKey(FolderKey, rest, fs);
      if status.Fail? {
        return;
      }
      status, rest := ApplyKnownKey(FileNameKey, rest, fs);
      if status.Fail? {
        return;
      }
      status, rest := ApplyKnownKey(QualityKey, rest, fs);
      if status.Fail? {
        return;
      }
      status, rest := ApplyKnownKey(MethodKey, rest, fs);
      if status.Fail? {
        return;
      }
      if |rest| > 0 {
        var list := CollectKeys(rest);
        assert list == KeysOf(rest);
        return Fail(UnknownKeys(list));
      }
      return Pass;
    }

    /** `checkRequiredProperties`: collect every unset required field, then raise once. */
    method CheckRequiredProperties() returns (status: Status)
      ensures status == Settings.CheckRequiredProperties(State())
      ensures status.Fail? <==> exists f :: IsUnset(State(), f)
      ensures status.Fail? ==> forall f :: f in status.error.fields <==> IsUnset(State(), f)
    {
      ghost var c, o := State(), RequiredOrder;
      var a: seq<Field> := [];
      ghost var before := a;
      if inputPath.None? {
        a := a + [InputPathField];
      }
      UnsetAmongStep(c, before, o, a);
      assert o[1..] == [FolderField, FileNameField, WidthField, HeightField];
      before := a;
      if folder.None? {
        a := a + [FolderField];
      }
      UnsetAmongStep(c, before, o[1..], a);
      assert o[1..][1..] == [FileNameField, WidthField, HeightField];
      before := a;
      if fileName.None? {
        a := a + [FileNameField];
      }
      UnsetAmongStep(c, before, o[1..][1..], a);
      assert o[1..][1..][1..] == [WidthField, HeightField];
      before := a;
      if width.None? {
        a := a + [WidthField];
      }
      UnsetAmongStep(c, before, o[1..][1..][1..], a);
      assert o[1..][1..][1..][1..] == [HeightField];
      before := a;
      if height.None? {
        a := a + [HeightField];
      }
      UnsetAmongStep(c, before, o[1..][1..][1..][1..], a);
      assert a + UnsetAmong(c, []) == MissingFields(c);
      assert a == MissingFields(c);
      CheckRequiredPropertiesExact(c);
      if a != [] {
        return Fail(MissingProperties(a));
      }
      return Pass;
    }

    /** `checkOverwrite`, with `file_exists` answered by `fs`. */
    method CheckOverwrite(fs: FileSystem) returns (status: Status)
      ensures status == Settings.CheckOverwrite(State(), fs)
      ensures status.Fail? <==> !overwrite && (Destination(State()) in fs.files || Destination(State()) in fs.dirs)
    {
      if !overwrite && fs.FileExists(OrEmpty(folder) + "/" + OrEmpty(fileName)) {
        return Fail(FileExists(OrEmpty(fileName)));
      }
      return Pass;
    }

    /** `returnInputResourse`, with decoding answered by `fs`. */
    method ReturnInputResource(fs: FileSystem) returns (status: Status)
      ensures status == Settings.ReturnInputResource(State(), fs)
    {
      var path := OrEmpty(inputPath);
      if inputType.None? {
        return Fail(InvalidInputType);
      }
      if inputHeight > 0 && path in fs.images && TypeOfCode(fs.images[path].typeCode) == inputType {
        return Pass;
      }
      return Fail(DecodeFailed(path));
    }

    /**
     * `process` up to the resampling: the checks, then the crop and canvas
     * computed from the stored ratios as PHP computes them.
     */
    method Process(fs: FileSystem) returns (r: Result<ResamplePlan, Error>)
      requires Valid()
      ensures r == ProcessPlan(State(), fs)
    {
      var s := CheckRequiredProperties();
      if s.Fail? {
        return Failure(s.error);
      }
      s := CheckOverwrite(fs);
      if s.Fail? {
        return Failure(s.error);
      }
      s := ReturnInputResource(fs);
      if s.Fail? {
        return Failure(s.error);
      }
      MissingFieldsExact(State());
      var p := PlanResample();
      return Success(p);
    }

    /**
     * The `switch ($this->method)` of `process`: the crop and canvas,
     * computed from the stored ratios with the source's float expressions.
     */
    method PlanResample() returns (p: ResamplePlan)
      requires Valid() && width.Some? && height.Some? && inputWidth > 0
      ensures p == Plan(inputWidth, inputHeight, width.value, height.value, policy)
    {
      var w, h := width.value, height.value;
      var sw, sh := inputWidth, inputHeight;
      RatioOrder(sw, sh, w, h);
      match policy
      case Fill =>
        var srcX, srcY, srcWidth, srcHeight;
        if ratio < inputRatio {
          // the source is wider after scaling: crop its width
          srcWidth := ((w as real / h as real) * sh as real).Floor;
          srcHeight := sh;
          srcX := ((sw - srcWidth) as real / 2.0).Floor;
          srcY := 0;
          ScaledFloor(w, h, sh);
          FloorDiv(sw - srcWidth, 2);
        } else if ratio > inputRatio {
          // the source is taller after scaling: crop its height
          srcWidth := sw;
          srcHeight := ((h as real / w as real) * sw as real).Floor;
          srcX := 0;
          srcY := ((sh - srcHeight) as real / 2.0).Floor;
          ScaledFloor(h, w, sw);
          FloorDiv(sh - srcHeight, 2);
        } else {
          srcWidth, srcHeight, srcX, srcY := sw, sh, 0, 0;
        }
        p := ResamplePlan(Rect(srcX, srcY, srcWidth, srcHeight), w as real, h as real);
      case Fit =>
        var dstWidth, dstHeight;
        if sw <= w && sh <= h {
          dstWidth, dstHeight := sw as real, sh as real;
        } else if ratio < inputRatio {
          dstWidth := w as real;
          dstHeight := (w as real / sw as real) * sh as real;
        } else if ratio > inputRatio {
          dstWidth := (h as real / sh as real) * sw as real;
          dstHeight := h as real;
        } else {
          dstWidth, dstHeight := w as real, h as real;
        }
        p := ResamplePlan(Rect(0, 0, sw, sh), dstWidth, dstHeight);
    }
  }
}
