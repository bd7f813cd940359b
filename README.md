# imageProcessor in Dafny

A model of the PHP class `imageProcessor` (`imageProcessor.php`). The class
takes one input image (GIF, JPEG or PNG) and writes a JPEG of a requested
size into a folder. It has two policies:

- `fill` scales the image to cover the target box and crops the overhang,
  keeping the centre;
- `fit` scales a larger image down until it fits inside the box, and never
  enlarges a smaller one.

The model covers two parts of the class:

- **The configuration state machine.** This covers the private fields, the
  public setters (`allowOverwrite`, `setInputPath`, `setWidth`,
  `setHeight`, `setFolder`, `setFileName`, `setQuality`), `setMethod`,
  `setOptions`, and the private helpers they rely on: `inputToInteger`,
  `inputToBoolean`, `setInputType`, `setInputProperties` and `setRatio`.
  It also covers the checks `process` runs before it resamples:
  `checkRequiredProperties`, `checkOverwrite` and `returnInputResourse`.
- **The geometry planner in `process`.** From the source size, the target
  box and the method, it computes the source crop rectangle and the
  destination canvas handed to `imagecopyresampled`.

Files:

- `wrappers.dfy` holds `Option` and `Result`.
- `php.dfy` holds the PHP values a caller can pass (int, string, bool,
  NULL) and the PHP behaviour the class relies on: string conversion,
  loose comparison with a word, and `explode`/`implode` with the last
  piece `array_pop` takes.
- `inputs.dfy` holds the input converters and the closed value sets of
  `setInputType`, `setMethod` and `setFileName`.
- `geometry.dfy` holds the `fill`/`fit` plan and its properties.
- `settings.dfy` holds the object's fields as a `Config` value, one step
  function per setter and check, and `ProcessPlan` (what `process`
  computes before it touches pixels).
- `settings_properties.dfy` holds the lemmas about those step functions:
  the object invariant, the rejection rules, `setOptions` and `process`.
- `processor.dfy` holds the class `ImageProcessor`. Its fields mirror the
  PHP object and its methods update them in place. Each method is proved
  to change the state exactly as the matching step function says, and to
  keep the invariant `Valid()`.

The filesystem is a parameter (`FileSystem`). It answers `file_exists`,
`is_dir` and `getimagesize`. Its well-formedness (`Wf`) says two things:
the empty path names nothing, and every readable image is a file of
positive size.

A caller's value is a `Php.Value`. An options array is a sequence of
(key, value) pairs in insertion order, which is how a PHP array iterates.
A thrown exception is a `Fail(error)` status, or a `Failure` result. The
`Error` constructors name the exception and carry what its message
interpolates.

`ratio < input_ratio` is compared exactly, as `tw*sh < sw*th`
(`Geometry.RatioOrder`). `floor((w/h)*sh)` is the integer quotient
`(w*sh)/h` (`Geometry.ScaledFloor`, `Geometry.FloorDiv`). The `fit` sizes
stay exact reals, and the canvas PHP creates is their truncation
(`Geometry.Canvas`). The method `ImageProcessor.Process` computes with the
source's own float expressions, over reals, and is proved equal to the
integer plan.

An 800×600 source fitted into a 400×400 box is relatively wider than the
box, so the code takes its "wider" branch and scales it to the box width,
giving 400×300 (`Geometry.FitExample`).

## Model

| member | source | states |
|---|---|---|
| Inputs.InputToInteger | imageProcessor.php:41-58 | an int is kept; a string converts exactly when it is all digits, and then to its decimal value; bool and NULL always convert, to a non-negative number |
| Inputs.InputToIntegerOfDecimal | imageProcessor.php:47-54 | the decimal digits of any natural number convert back to that number |
| Inputs.InputToIntegerRejects | imageProcessor.php:47-50 | a string with any non-digit (sign, dot, space) converts to NULL |
| Php.DigitsRoundTrip | imageProcessor.php:53 | `(int)` of a number's decimal string gives the number back, and the string is all digits |
| Inputs.InputToBoolean | imageProcessor.php:62-83 | true exactly for true, 1 and "1"; false exactly for false, 0 and "0"; NULL for every other value |
| Inputs.TypeOfCode | imageProcessor.php:87-105 | an IMAGETYPE constant is recognised exactly when it is 1, 2 or 3 |
| Inputs.TypeOfCodeInverse | imageProcessor.php:89-102 | the switch maps each format's constant to that format and no other constant to it |
| Inputs.MethodOf | imageProcessor.php:109-117 | `setMethod` accepts exactly "fill", "fit" and true (loose `in_array`); only "fit" selects the fit branch of `process` |
| Php.ExplodeRoundTrip | imageProcessor.php:258 | joining the pieces of `explode` with the delimiter gives the string back, and no piece holds the delimiter |
| Inputs.FileNameAcceptedExactly | imageProcessor.php:255-265 | a file name passes the extension check exactly when it is a string equal to "jpg" or ending in ".jpg" |
| SettingsProperties.InitialValid | imageProcessor.php:10-24 | the initial field values satisfy the object invariant |
| SettingsProperties.ApplyPreservesValid | imageProcessor.php:198-277 | every setter keeps the invariant, whether it accepts or raises |
| SettingsProperties.SetOptionsPreservesValid | imageProcessor.php:281-340 | `setOptions` keeps the invariant whichever key it stops at |
| SettingsProperties.RejectionKeepsFields | imageProcessor.php:198-277 | a setter that raises changes no field; `setInputPath` changes only the path, sizes and ratio it stored before the failing probe or type check, and nothing if the path does not exist |
| SettingsProperties.SideRule | imageProcessor.php:220-241 | width and height accept exactly the values read as a whole number of at least 1, and store that number |
| SettingsProperties.QualityRule | imageProcessor.php:269-277 | quality accepts exactly the values read as 0..100, and stores the converted value |
| SettingsProperties.RatioOnceBothSet | imageProcessor.php:120-126 | the target ratio stays 0 until both sides are set, then becomes width/height |
| SettingsProperties.KnownOrderSteps | imageProcessor.php:288-327 | `setOptions` applies the eight known keys once each, in the fixed order overwrite, input_path, width, height, folder, file_name, quality, method |
| SettingsProperties.ApplyAllRest | imageProcessor.php:288-327 | when every known key is accepted, what is left is the options with exactly those keys unset |
| SettingsProperties.ApplyAllOnly | imageProcessor.php:288-327 | entries with other keys do not change what the known keys do |
| SettingsProperties.SetOptionsUnknownKeys | imageProcessor.php:281-339 | unknown keys do not stop the known ones; a setter's error wins; otherwise the result is one error naming every unknown key in order, or success if there is none |
| SettingsProperties.UnknownKeysExact | imageProcessor.php:330-338 | a key is reported as unknown exactly when it was given and is not one of the eight known keys |
| Settings.MissingFieldsExact | imageProcessor.php:130-153 | the missing-properties list holds exactly the unset required fields, in the order input path, folder, file name, width, height; it is empty exactly when all five are set |
| Settings.CheckRequiredPropertiesExact | imageProcessor.php:130-153 | the check raises exactly when some required field is unset, and its error names all the unset ones |
| Settings.UnsetAmongExact | imageProcessor.php:132-145 | a field is listed exactly when it is among those tested and unset; the list keeps the tested order |
| SettingsProperties.ProcessReportsAllMissing | imageProcessor.php:343-345 | `process` with unset required fields raises one error naming all of them |
| SettingsProperties.NewObjectMissesAll | imageProcessor.php:10-24 | a new object cannot be processed, and the error names all five required properties |
| SettingsProperties.ProcessStopsBeforeDecoding | imageProcessor.php:157-161 | without overwrite permission, an existing destination (a file or directory) stops `process` before the input is decoded, whatever the images hold |
| SettingsProperties.ProcessPlanSound | imageProcessor.php:343-430 | when `process` reaches resampling: all required fields are set, writing is permitted, and the source size is positive; the crop lies in the source; `fill` draws the whole box; `fit` copies the whole source onto a canvas within the box and the source |
| Geometry.Plan | imageProcessor.php:350-421 | the source rectangle always lies inside the source; `fill` always draws the full target box; `fit` always copies the whole source |
| Geometry.RatioOrder | imageProcessor.php:354 | comparing the float ratios width/height and input_width/input_height is comparing the cross products |
| Geometry.FloorDiv | imageProcessor.php:359 | flooring an exact real quotient of integers gives the integer quotient |
| Geometry.ScaledFloor | imageProcessor.php:357 | `floor((a/b)*c)` is the integer quotient `(a*c)/b` |
| Geometry.FillCropInside | imageProcessor.php:354-377 | every `fill` crop lies within the source |
| Geometry.FillCropCentred | imageProcessor.php:354-377 | the `fill` crop is centred on the cropped axis and spans the source on the other; at equal ratios it is the whole source |
| Geometry.FillCropAspect | imageProcessor.php:354-369 | the cropped side is the largest whole length whose ratio to the kept side does not exceed the target's |
| Geometry.FillCropEmpty | imageProcessor.php:354-369 | the crop has an empty side exactly when the kept side is too short to yield one whole pixel on the cropped axis |
| Geometry.FitNoUpscale | imageProcessor.php:390-397 | a source that fits the box is copied at its own size |
| Geometry.FitInsideBox | imageProcessor.php:390-421 | the `fit` canvas is positive, no larger than the box or the source, and keeps the source's aspect ratio exactly |
| Geometry.FitBranches | imageProcessor.php:398-421 | a relatively wider source is scaled to the box width and comes out less tall than the box; a taller one is scaled to the box height; at equal ratios it fills the box; a source that does not fit is always scaled down |
| Geometry.FitCanvasEmpty | imageProcessor.php:398-424 | the truncated `fit` canvas loses all rows (or columns) exactly when the scaled side falls below one pixel |
| Geometry.FillExample | imageProcessor.php:354-360 | a 4000×2000 source filled into 800×800 keeps the middle 2000×2000 square from x = 1000 |
| Geometry.FitExample | imageProcessor.php:398-405 | an 800×600 source fitted into 400×400 becomes 400×300 |
| Processor.CollectKeys | imageProcessor.php:332-335 | the loop collects the keys left, one for each entry, in their order |
| Processor.ImageProcessor.constructor | imageProcessor.php:10-24 | a new object holds the initial field values and satisfies the invariant |
| Processor.ImageProcessor.SetRatio | imageProcessor.php:120-126 | the ratio is recomputed only when both sides are set and non-zero |
| Processor.ImageProcessor.AllowOverwrite | imageProcessor.php:198-206 | the fields change as `Settings.AllowOverwrite` says, keeping the invariant |
| Processor.ImageProcessor.SetInputPath | imageProcessor.php:210-217 | the fields change as `Settings.SetInputPath` says (the path is stored before probing), keeping the invariant |
| Processor.ImageProcessor.SetInputProperties | imageProcessor.php:165-174 | size and ratio are stored before the type is checked, as `Settings.SetInputProperties` says; the invariant holds afterwards |
| Processor.ImageProcessor.SetInputType | imageProcessor.php:87-105 | the input type changes as `Settings.SetInputType` says |
| Processor.ImageProcessor.SetHeight | imageProcessor.php:220-229 | the fields change as `Settings.SetHeight` says, keeping the invariant |
| Processor.ImageProcessor.SetWidth | imageProcessor.php:232-241 | the fields change as `Settings.SetWidth` says, keeping the invariant |
| Processor.ImageProcessor.SetFolder | imageProcessor.php:245-251 | the fields change as `Settings.SetFolder` says, keeping the invariant |
| Processor.ImageProcessor.SetFileName | imageProcessor.php:255-265 | the fields change as `Settings.SetFileName` says, keeping the invariant |
| Processor.ImageProcessor.SetQuality | imageProcessor.php:269-277 | the fields change as `Settings.SetQuality` says, keeping the invariant |
| Processor.ImageProcessor.SetMethod | imageProcessor.php:109-117 | the fields change as `Settings.SetMethod` says, keeping the invariant |
| Processor.ImageProcessor.ApplyKnownKey | imageProcessor.php:288-327 | one `array_key_exists` block: the setter is called if the key is present, and the key is unset only when the setter accepts |
| Processor.ImageProcessor.SetOptions | imageProcessor.php:281-339 | the fields and outcome are those of `Settings.SetOptions`, keeping the invariant |
| Processor.ImageProcessor.CheckRequiredProperties | imageProcessor.php:130-153 | raises exactly when a required field is unset, and names exactly the unset fields, in order |
| Processor.ImageProcessor.CheckOverwrite | imageProcessor.php:157-161 | raises exactly when overwriting is not allowed and `folder/file_name` exists as a file or directory |
| Processor.ImageProcessor.ReturnInputResource | imageProcessor.php:178-194 | raises when no input type is stored; otherwise the outcome is the filesystem's decode predicate |
| SettingsProperties.AcceptedInputDecodes | imageProcessor.php:165-194 | after an accepted `setInputPath` the stored type is the probed one, so the switch picks the matching decoder and the decode predicate holds |
| Processor.ImageProcessor.Process | imageProcessor.php:343-421 | the checks run in order and the first one to raise decides the error; otherwise the result is the plan `ProcessPlan` describes |
| Processor.ImageProcessor.PlanResample | imageProcessor.php:350-421 | the crop and canvas computed with the source's float expressions equal the integer plan `Geometry.Plan` |

## Left out

- GD itself is not modelled: `imagecreatefrom*`, `imagecreatetruecolor`, `imagecopyresampled`, `imagejpeg` and `imagedestroy`. `process` ends with the plan it would hand to `imagecopyresampled`. Whether an input decodes is a predicate on the filesystem: it decodes when it is a probed image of the stored type.
- `file_exists`, `is_dir` and `getimagesize` are answers of the `FileSystem` parameter, not system calls.
- Float rounding is not modelled. Ratios are compared exactly, `fill`'s cropped side is the exact integer quotient, and the `fit` sizes are exact reals. PHP computes these as IEEE doubles, where `(w/h)*sh` can land just below a whole number: `(1/49)*49` is `0.9999999999999999`, so PHP's floored `fill` crop or truncated `fit` canvas can be one pixel smaller than the model's, at ordinary sizes (target 1×49 on a 2×49 source: PHP crops 0 columns, the model 1). Only the ratio comparison needs very large sizes to differ.
- Processor.ImageProcessor.ReturnInputResource: the source raises only in the switch's `default` case. `imagecreatefromgif/jpeg/png` return false on a file they cannot decode. Under PHP 8 the failure surfaces later, as a TypeError from `imagecopyresampled` after the plan is computed (in `fit`, `imagecreatetruecolor` raises a ValueError first when the canvas truncates to 0, see `Geometry.FitCanvasEmpty`). Under PHP 7 nothing is raised and a black JPEG is written. The model reports the failure at this point, as `DecodeFailed`. It decides decoding by the filesystem predicate alone: a file with a valid header and corrupt data decodes in the model and fails in GD. Pixel contents, and a file changed after it was probed, are not modelled.
- Inputs.InputToInteger: a digit string is read as an unbounded number. PHP's `(int)` saturates at the 64-bit maximum.
- Float and array values as setter arguments are not modelled. Neither are integer option keys.
- The `is_array` check at the start of `setOptions` is left out, because options are always a sequence here.
- The constructor's options argument and `process_now` flag are left out. They only call `setOptions` and `process`, which are modelled.
- Exception message texts are not modelled. Each error constructor carries the values its message interpolates.
- The model follows PHP 8 throughout: loose comparison (under PHP 7 the int 0 also equals 'fill', so `setMethod(0)` would be accepted), the DivisionByZeroError of `setInputProperties` on an unreadable file, and the TypeError of `imagecopyresampled` on a failed decode.
- A stored input path, folder or file name is the string conversion of the value passed. PHP stores the value itself.
- A file `getimagesize` cannot read gives NULL sizes, stored here as 0. The division that follows raises before the ratio is assigned.
- Processor.ImageProcessor.SetInputType: its contract does not mention the invariant, because it is called only from `SetInputProperties`, which restores it.
