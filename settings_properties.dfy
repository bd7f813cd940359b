/** What the setters, `setOptions` and `process` promise about the object's fields. */
module SettingsProperties {
  import opened Wrappers
  import opened Php
  import opened Inputs
  import opened Geometry
  import opened Settings

  // ---------------------------------------------------------------------
  // the object invariant

  /** A new object satisfies the invariant. */
  lemma InitialValid()
    ensures Initial().Valid()
  {
  }

  /** Every setter keeps the invariant, whether it accepts or raises. */
  lemma ApplyPreservesValid(c: Config, k: Key, v: Value, fs: FileSystem)
    requires c.Valid() && fs.Wf()
    ensures Apply(c, k, v, fs).after.Valid()
  {
    if k == InputPathKey {
      var p := StringOf(v);
      if fs.FileExists(p) && p in fs.images {
        var info := fs.images[p];
        assert info.width > 0 && info.height > 0;
      }
    }
  }

  /** `setOptions` keeps the invariant, whichever key it stops at. */
  lemma {:induction false} ApplyAllPreservesValid(p: Progress, order: seq<Key>, fs: FileSystem)
    requires p.cfg.Valid() && fs.Wf()
    ensures ApplyAll(p, order, fs).cfg.Valid()
    decreases |order|
  {
    if order != [] {
      var q := ApplyKey(p, order[0], fs);
      if p.status.Pass? && Lookup(p.rest, KeyName(order[0])).Some? {
        ApplyPreservesValid(p.cfg, order[0], Lookup(p.rest, KeyName(order[0])).value, fs);
      }
      ApplyAllPreservesValid(q, order[1..], fs);
    }
  }

  lemma SetOptionsPreservesValid(c: Config, opts: Options, fs: FileSystem)
    requires c.Valid() && fs.Wf()
    ensures SetOptions(c, opts, fs).after.Valid()
  {
    ApplyAllPreservesValid(Progress(c, opts, Pass), KnownOrder, fs);
  }

  // ---------------------------------------------------------------------
  // rejection

  /**
   * A setter that raises leaves every field as it was, except
   * `setInputPath` once the path exists: the path, and the size and ratio
   * read from it, are already stored when probing or the type check fails.
   */
  lemma RejectionKeepsFields(c: Config, k: Key, v: Value, fs: FileSystem)
    requires fs.Wf()
    requires Apply(c, k, v, fs).status.Fail?
    ensures k != InputPathKey ==> Apply(c, k, v, fs).after == c
    ensures k == InputPathKey ==>
      Apply(c, k, v, fs).after.(inputPath := c.inputPath, inputWidth := c.inputWidth,
                                inputHeight := c.inputHeight, inputRatio := c.inputRatio) == c
    ensures Apply(c, k, v, fs).status.error.InputFileMissing? ==> Apply(c, k, v, fs).after == c
  {
  }

  // ---------------------------------------------------------------------
  // integer settings

  /** A value that `inputToInteger` reads as a whole number of at least `lo`. */
  predicate IntegerAtLeast(v: Value, lo: int)
  {
    match v
    case PInt(i) => i >= lo
    case PStr(s) => AllDigits(s) && DigitsValue(s) >= lo
    case PBool(b) => (if b then 1 else 0) >= lo
    case PNull => 0 >= lo
  }

  /**
   * `setWidth` and `setHeight` accept an int of at least 1, a digit string
   * of value at least 1, or true; they reject every other value, NULL and
   * false included. The stored side is the converted value.
   */
  lemma SideRule(c: Config, v: Value)
    ensures SetWidth(c, v).status.Pass? <==> IntegerAtLeast(v, 1)
    ensures SetHeight(c, v).status.Pass? <==> IntegerAtLeast(v, 1)
    ensures SetWidth(c, v).status.Pass? ==> SetWidth(c, v).after.width == InputToInteger(v)
    ensures SetHeight(c, v).status.Pass? ==> SetHeight(c, v).after.height == InputToInteger(v)
  {
  }

  /**
   * `setQuality` accepts exactly the values `inputToInteger` reads as
   * 0..100: ints and digit strings in range, and also booleans and NULL,
   * which read as 1 or 0.
   */
  lemma QualityRule(c: Config, v: Value)
    ensures SetQuality(c, v).status.Pass? <==>
      IntegerAtLeast(v, 0) && !IntegerAtLeast(v, 101)
    ensures SetQuality(c, v).status.Pass? ==>
      0 <= SetQuality(c, v).after.quality <= 100 && Some(SetQuality(c, v).after.quality) == InputToInteger(v)
  {
  }

  /**
   * The ratio is derived only once both sides are set: setting the width
   * of an object without a height leaves the ratio 0, and then setting the
   * height makes it width/height.
   */
  lemma RatioOnceBothSet(c: Config, w: int, h: int)
    requires c.Valid() && w >= 1 && h >= 1
    ensures var s1 := SetWidth(c, PInt(w));
      var s2 := SetHeight(s1.after, PInt(h));
      s1.status == Pass && s2.status == Pass &&
      (c.height.None? ==> s1.after.ratio == 0.0) &&
      s2.after.ratio == w as real / h as real
  {
  }

  // ---------------------------------------------------------------------
  // setOptions

  lemma {:induction false} LookupAbsent(opts: Options, name: string)
    requires Lookup(opts, name).None?
    ensures Without(opts, {name}) == opts
    decreases |opts|
  {
    if opts != [] {
      LookupAbsent(opts[1..], name);
      assert opts == [opts[0]] + opts[1..];
    }
  }

  lemma {:induction false} WithoutWithout(opts: Options, a: set<string>, b: set<string>)
    ensures Without(Without(opts, a), b) == Without(opts, a + b)
    decreases |opts|
  {
    if opts != [] {
      WithoutWithout(opts[1..], a, b);
      if opts[0].0 !in a {
        assert Without(opts, a) == [opts[0]] + Without(opts[1..], a);
        assert Without(opts, a)[1..] == Without(opts[1..], a);
      }
    }
  }

  lemma {:induction false} LookupOnly(opts: Options, names: set<string>, name: string)
    requires name in names
    ensures Lookup(Only(opts, names), name) == Lookup(opts, name)
    decreases |opts|
  {
    if opts != [] {
      LookupOnly(opts[1..], names, name);
      if opts[0].0 in names {
        assert Only(opts, names)[1..] == Only(opts[1..], names);
      }
    }
  }

  lemma {:induction false} WithoutOnly(opts: Options, names: set<string>, a: set<string>)
    ensures Without(Only(opts, names), a) == Only(Without(opts, a), names)
    decreases |opts|
  {
    if opts != [] {
      WithoutOnly(opts[1..], names, a);
      var o := Only(opts, names);
      var w := Without(opts, a);
      if opts[0].0 in names {
        assert o[1..] == Only(opts[1..], names);
      }
      if opts[0].0 !in a {
        assert w[1..] == Without(opts[1..], a);
      }
    }
  }

  lemma {:induction false} OnlyOfWithout(opts: Options, names: set<string>)
    ensures Only(Without(opts, names), names) == []
    decreases |opts|
  {
    if opts != [] {
      OnlyOfWithout(opts[1..], names);
      if opts[0].0 !in names {
        assert Without(opts, names)[1..] == Without(opts[1..], names);
      }
    }
  }

  lemma {:induction false} ApplyAllFailed(p: Progress, order: seq<Key>, fs: FileSystem)
    requires fs.Wf() && p.status.Fail?
    ensures ApplyAll(p, order, fs) == p
    decreases |order|
  {
    if order != [] {
      ApplyAllFailed(p, order[1..], fs);
    }
  }

  lemma NamesOfCons(order: seq<Key>)
    requires order != []
    ensures NamesOf(order) == {KeyName(order[0])} + NamesOf(order[1..])
  {
    forall n | n in NamesOf(order) ensures n in {KeyName(order[0])} + NamesOf(order[1..]) {
      var k :| k in order && KeyName(k) == n;
      if k != order[0] {
        assert k in order[1..];
      }
    }
  }

  /** When every known key is accepted, what is left is the options without the keys applied. */
  lemma {:induction false} ApplyAllRest(p: Progress, order: seq<Key>, fs: FileSystem)
    requires fs.Wf() && p.status.Pass? && ApplyAll(p, order, fs).status.Pass?
    ensures ApplyAll(p, order, fs).rest == Without(p.rest, NamesOf(order))
    decreases |order|
  {
    if order == [] {
      assert NamesOf(order) == {};
      NoNames(p.rest);
    } else {
      var n := KeyName(order[0]);
      var q := ApplyKey(p, order[0], fs);
      if q.status.Fail? {
        ApplyAllFailed(q, order[1..], fs);
      }
      if Lookup(p.rest, n).None? {
        LookupAbsent(p.rest, n);
      }
      assert q.rest == Without(p.rest, {n});
      ApplyAllRest(q, order[1..], fs);
      WithoutWithout(p.rest, {n}, NamesOf(order[1..]));
      NamesOfCons(order);
    }
  }

  lemma {:induction false} NoNames(opts: Options)
    ensures Without(opts, {}) == opts
    decreases |opts|
  {
    if opts != [] {
      NoNames(opts[1..]);
      assert opts == [opts[0]] + opts[1..];
    }
  }

  /**
   * Applying the known keys to all the options or to only the known ones
   * gives the same fields and the same status; the options left differ
   * only by the unknown entries.
   */
  lemma {:induction false} ApplyAllOnly(p: Progress, order: seq<Key>, names: set<string>, fs: FileSystem)
    requires fs.Wf() && NamesOf(order) <= names
    ensures var q := ApplyAll(Progress(p.cfg, Only(p.rest, names), p.status), order, fs);
      var r := ApplyAll(p, order, fs);
      q == Progress(r.cfg, Only(r.rest, names), r.status)
    decreases |order|
  {
    if order != [] {
      var n := KeyName(order[0]);
      NamesOfCons(order);
      assert n in names;
      LookupOnly(p.rest, names, n);
      WithoutOnly(p.rest, names, {n});
      ApplyAllOnly(ApplyKey(p, order[0], fs), order[1..], names, fs);
    }
  }

  /** `setOptions`' eight blocks, one per known key, in their order. */
  lemma KnownOrderSteps(p: Progress, fs: FileSystem)
    requires fs.Wf()
    ensures ApplyAll(p, KnownOrder, fs) ==
      ApplyKey(ApplyKey(ApplyKey(ApplyKey(ApplyKey(ApplyKey(ApplyKey(ApplyKey(p,
        OverwriteKey, fs), InputPathKey, fs), WidthKey, fs), HeightKey, fs),
        FolderKey, fs), FileNameKey, fs), QualityKey, fs), MethodKey, fs)
  {
    var o := KnownOrder;
    assert o[1..][1..][1..][1..][1..][1..][1..][1..] == [];
  }

  lemma KnownNamesOfOrder()
    ensures NamesOf(KnownOrder) == KnownNames
  {
    assert KeyName(KnownOrder[0]) == "overwrite";
    assert KeyName(KnownOrder[1]) == "input_path";
    assert KeyName(KnownOrder[2]) == "width";
    assert KeyName(KnownOrder[3]) == "height";
    assert KeyName(KnownOrder[4]) == "folder";
    assert KeyName(KnownOrder[5]) == "file_name";
    assert KeyName(KnownOrder[6]) == "quality";
    assert KeyName(KnownOrder[7]) == "method";
  }

  /**
   * Unknown keys never stop the known ones from being applied: the fields
   * after `setOptions` are those after applying only the known entries.
   * A setter that raises decides the status; otherwise the status is one
   * error listing every unknown key in the order given, or success if
   * there is none.
   */
  lemma SetOptionsUnknownKeys(c: Config, opts: Options, fs: FileSystem)
    requires fs.Wf()
    ensures var full := SetOptions(c, opts, fs);
      var known := SetOptions(c, Only(opts, KnownNames), fs);
      full.after == known.after &&
      (known.status.Fail? ==> full.status == known.status) &&
      (known.status.Pass? ==>
        full.status == if UnknownKeysOf(opts) == [] then Pass else Fail(UnknownKeys(UnknownKeysOf(opts))))
  {
    var start := Progress(c, opts, Pass);
    var r := ApplyAll(start, KnownOrder, fs);
    KnownNamesOfOrder();
    ApplyAllOnly(start, KnownOrder, KnownNames, fs);
    var q := ApplyAll(Progress(c, Only(opts, KnownNames), Pass), KnownOrder, fs);
    if r.status.Pass? {
      ApplyAllRest(start, KnownOrder, fs);
      OnlyOfWithout(opts, KnownNames);
      assert q.rest == [];
    }
  }

  lemma KeysOfCons(opts: Options)
    requires opts != []
    ensures KeysOf(opts) == [opts[0].0] + KeysOf(opts[1..])
  {
  }

  /** The unknown keys reported are exactly the given keys that `setOptions` does not know. */
  lemma {:induction false} UnknownKeysExact(opts: Options, k: string)
    ensures k in UnknownKeysOf(opts) <==> k in KeysOf(opts) && k !in KnownNames
    decreases |opts|
  {
    if opts != [] {
      UnknownKeysExact(opts[1..], k);
      KeysOfCons(opts);
      var w := Without(opts, KnownNames);
      if opts[0].0 !in KnownNames {
        assert w == [opts[0]] + Without(opts[1..], KnownNames);
        KeysOfCons(w);
      }
    }
  }

  // ---------------------------------------------------------------------
  // process

  /**
   * An input `setInputPath` accepts always passes `returnInputResourse`:
   * the stored type is the one the image was probed with, and its size is
   * positive.
   */
  lemma AcceptedInputDecodes(c: Config, v: Value, fs: FileSystem)
    requires fs.Wf()
    requires SetInputPath(c, v, fs).status.Pass?
    ensures ReturnInputResource(SetInputPath(c, v, fs).after, fs) == Pass
  {
    var p := StringOf(v);
    assert p in fs.images;
    assert fs.images[p].height > 0;
  }

  /** `process` on a configuration with unset required fields reports all of them in one error. */
  lemma ProcessReportsAllMissing(c: Config, fs: FileSystem)
    requires c.Valid()
    requires MissingFields(c) != []
    ensures ProcessPlan(c, fs) == Failure(MissingProperties(MissingFields(c)))
  {
  }

  /** A new object cannot be processed, and the error names all five required properties. */
  lemma NewObjectMissesAll(fs: FileSystem)
    ensures ProcessPlan(Initial(), fs) == Failure(MissingProperties(RequiredOrder))
  {
    var c := Initial();
    assert UnsetAmong(c, RequiredOrder[4..]) == [HeightField];
    assert UnsetAmong(c, RequiredOrder[3..]) == [WidthField, HeightField];
    assert UnsetAmong(c, RequiredOrder[2..]) == RequiredOrder[2..];
    assert UnsetAmong(c, RequiredOrder[1..]) == RequiredOrder[1..];
    assert MissingFields(c) == RequiredOrder;
    assert CheckRequiredProperties(c) == Fail(MissingProperties(RequiredOrder));
  }

  /**
   * An existing destination without overwrite permission stops `process`
   * before the input is decoded: the outcome does not depend on what the
   * images hold.
   */
  lemma ProcessStopsBeforeDecoding(c: Config, fs: FileSystem, other: FileSystem)
    requires c.Valid() && MissingFields(c) == []
    requires !c.overwrite && fs.FileExists(Destination(c))
    requires other.files == fs.files && other.dirs == fs.dirs
    ensures ProcessPlan(c, fs) == Failure(FileExists(OrEmpty(c.fileName)))
    ensures ProcessPlan(c, other) == ProcessPlan(c, fs)
  {
  }

  /**
   * When `process` reaches the resampling, every required property is set,
   * the destination may be written, the source has a positive size, and
   * the plan crops inside the source; `fill` draws the whole target box and
   * `fit` a canvas within both the box and the source.
   */
  lemma ProcessPlanSound(c: Config, fs: FileSystem)
    requires c.Valid() && ProcessPlan(c, fs).Success?
    ensures MissingFields(c) == []
    ensures c.inputPath.Some? && c.folder.Some? && c.fileName.Some? && c.width.Some? && c.height.Some?
    ensures c.overwrite || !fs.FileExists(Destination(c))
    ensures c.inputWidth > 0 && c.inputHeight > 0
    ensures var p := ProcessPlan(c, fs).value;
      var sw, sh, tw, th := c.inputWidth, c.inputHeight, c.width.value, c.height.value;
      Inside(p.src, sw, sh) &&
      (c.policy == Fill ==> p.dstWidth == tw as real && p.dstHeight == th as real) &&
      (c.policy == Fit ==>
        (p.src == Rect(0, 0, sw, sh) &&
         p.dstWidth <= tw as real && p.dstHeight <= th as real &&
         p.dstWidth <= sw as real && p.dstHeight <= sh as real))
  {
    MissingFieldsExact(c);
    if c.policy == Fit {
      FitInsideBox(c.inputWidth, c.inputHeight, c.width.value, c.height.value);
    }
  }
}
