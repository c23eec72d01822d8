# Lens stack core of pcdsdevices, modelled in Dafny

This project models the part of `pcdsdevices/lens.py` (class `LensStackBase`) that holds the logic of the
Beryllium compound-refractive-lens stack:

- the focal length of a lens set (`calcFocalLength`, `calcFocalLengthForSingleLens`), module `Focal`,
  file `focal.dfy`. The lens set is the flat list `(n1, r1, n2, r2, ...)`. Each entry may be `None`. The
  index deviation δ of the material is a parameter (δ > 0).
- the pseudo-positioner transform (`forward`, `inverse`), module `Transform`, file `transform.dfy`. It covers
  the interpolation of x and y along the two-point alignment line, the error paths when presets are missing,
  and the two z/distance conversions.
- the safety interlock (`_makeSafe`), modules `Interlock` (`interlock.dfy`: filters, how the thickest filter
  is picked, the attenuator) and `LensStacks` (`lens_stack.dfy`: the device class with `MakeSafe` and the
  gated `Move`).
- `wrappers.dfy` holds `Option` (Python's `None`) and `Result` (a value or the error raised instead).

Arithmetic is on Dafny `real`s, so results are exact rationals, not IEEE floats.

Errors are modelled as values, following the code with δ taken as a plain Python float:
- `Focal.FocalError.MissingCount(i)`: `float(None)` on a count whose radius is present (a `TypeError`).
- `ZeroRadius(i)`: a present radius of 0 makes the single-lens focal length 0, and `num / 0.0` raises.
- `NoFocusingPower`: the accumulated inverse is 0, and `1./ftot_inverse` raises. With no radius present
  the inverse is still the int `0`, so this case raises whatever type δ has.
- `Transform.TransformError.CalibrationMissing`: a preset attribute is missing. `forward` logs this and
  returns `None`.
- `DegenerateCalibration`: both presets have the same z. The slope division at lines 113-114 then raises
  `ZeroDivisionError`, which `forward` does not catch.

The code has no explicit no-focusing-power or degenerate-calibration error: it raises Python's
`ZeroDivisionError`, recorded as the error values above. `forward` does not choose between the two
distance roots: it applies the formula elementwise to the numpy pair of roots, and the model takes one
root `dist` as a parameter.

## Model

| member | source | states |
|---|---|---|
| `Focal.SingleLensFocalLength` | pcdsdevices/lens.py:195-199 | f·2δ = radius; f is positive exactly when the radius is, and zero exactly when the radius is zero |
| `Focal.InversePower` | pcdsdevices/lens.py:183-192 | the accumulation over the first n pairs fails only with MissingCount or ZeroRadius, naming a pair below n |
| `Focal.FocalLength` | pcdsdevices/lens.py:179-193 | only the first len//2 pairs are read; an error of the accumulation is passed on unchanged; a result times the accumulated inverse is 1; NoFocusingPower exactly when the inverse accumulates to 0 |
| `Focal.CalcFocalLength` | pcdsdevices/lens.py:179-193 | the loop, with its early raises, returns exactly the focal length of the whole set |
| `Focal.ErrorPersists` | pcdsdevices/lens.py:184-192 | once a pair has raised, the computation's result is that error whatever follows |
| `Focal.PairPowerAgrees` | pcdsdevices/lens.py:190-198 | num / ((r/2)/δ) equals the thin-lens power num·2δ/r |
| `Focal.InversePowerOfWellFormed` | pcdsdevices/lens.py:184-192 | when every pair with a radius has a count and a nonzero radius, the inverse focal length is Σ num_i·2δ/r_i over those pairs; pairs without a radius add nothing |
| `Focal.InversePowerFailsAtFirstBad` | pcdsdevices/lens.py:184-192 | otherwise the error names the first bad pair: MissingCount if its count is None, else ZeroRadius |
| `Focal.InversePowerClosedForm` | pcdsdevices/lens.py:184-192 | the accumulation succeeds if and only if every pair can be evaluated, and then equals the closed-form sum |
| `Focal.InversePowerPrefix` | pcdsdevices/lens.py:184-186 | the accumulation over n pairs depends only on the first 2n entries |
| `Focal.TrailingEntryIgnored` | pcdsdevices/lens.py:184 | appending one element to an even-length lens set leaves its focal length unchanged |
| `Focal.NoRadiusNoFocus` | pcdsdevices/lens.py:183-193 | with no radius present the inverse stays 0 and the result is NoFocusingPower |
| `Focal.PhysicalPowerPositive` | pcdsdevices/lens.py:184-192 | with positive counts, radii and δ the total power is non-negative, and positive once a radius is present |
| `Focal.PhysicalFocalLength` | pcdsdevices/lens.py:179-199 | with positive counts, radii and δ and at least one radius, the focal length exists, is positive and is 1 / Σ num_i·2δ/r_i |
| `Focal.FocalLengthFails` | pcdsdevices/lens.py:179-193 | the focal length fails if and only if a pair cannot be evaluated or the total power is 0; otherwise it is the reciprocal of the total power |
| `Transform.InterpolateAxis` | pcdsdevices/lens.py:113-114 | the interpolated coordinate lies on the line through (z1, a1) and (z2, a2), and equals a1 at z1 and a2 at z2 |
| `Transform.Interpolate` | pcdsdevices/lens.py:113-115 | the stage point has the target z, lies on the calibration line, and is the preset point itself at either preset z |
| `Transform.DistanceToZ` | pcdsdevices/lens.py:103 | for zdir ≠ 0 the z solves z / (1000·zdir) + zoffset = dist (line 125 with zdir = ±1 recovers dist); for zdir = 0 it is 0 |
| `Transform.ZToDistance` | pcdsdevices/lens.py:125 | the distance d satisfies (d − zoffset)·1000 = z·zdir |
| `Transform.TargetZ` | pcdsdevices/lens.py:99-105 | with the beam size unchanged the target z is calib_z; otherwise, with zdir = ±1, it is the z whose distance is the given root |
| `Transform.Forward` | pcdsdevices/lens.py:97-121 | CalibrationMissing exactly when a preset is missing; DegenerateCalibration exactly when the presets share a z; otherwise z is calib_z (size unchanged) or the z of the distance root; x and y lie on the calibration line |
| `Transform.Inverse` | pcdsdevices/lens.py:123-129 | the readback's calib_z is the stage z, and its beam size is the beam-size model at the distance line 125 gives for that z |
| `Transform.OnLineUnique` | pcdsdevices/lens.py:113-114 | for non-degenerate presets, a point on the calibration line is determined by its z, so Forward's contract fixes x and y |
| `Transform.ForwardAtPresets` | pcdsdevices/lens.py:107-115 | forward at calib_z = z1 gives the first preset point, at z2 the second |
| `Transform.MidpointExample` | pcdsdevices/lens.py:113-115 | presets (0,0,0) and (10,20,100) with calib_z 50 give (5, 10, 50) |
| `Transform.DistanceRoundTrip` | pcdsdevices/lens.py:103-125 | converting a distance to z (line 103) and back (line 125) gives zoffset + (dist - zoffset)·zdir²; it returns dist if and only if zdir² = 1 or dist = zoffset |
| `Transform.ZRoundTrip` | pcdsdevices/lens.py:103-125 | converting z to a distance and back gives z·zdir²; it returns z if and only if zdir² = 1 or z = 0 |
| `Transform.ForwardInverse` | pcdsdevices/lens.py:97-129 | with zdir = ±1, reading back a forward result evaluates the beam-size model at the distance root forward started from (or at calib_z's distance), and returns the target z as calib_z |
| `Interlock.SelectThickest` | pcdsdevices/lens.py:231-235 | the scan picks the first filter of greatest thickness if some thickness is positive, and filters[0] otherwise; ties keep the earlier filter |
| `Interlock.SelectionUnique` | pcdsdevices/lens.py:231-235 | the selection rule determines a single filter |
| `Interlock.Attenuator.Insert` | pcdsdevices/lens.py:236-238 | inserting filter i changes only that filter's inserted state, to what the mechanism reports, and records one insert command for i |
| `LensStacks.LensStack.constructor` | pcdsdevices/lens.py:55-71 | the stack keeps the attenuator it is given (possibly none) and has issued no motion |
| `LensStacks.LensStack.MakeSafe` | pcdsdevices/lens.py:221-245 | no attenuator: false, nothing touched; otherwise only the selected filter may change, exactly one insert command (for that filter) is recorded if it was out and none if it was in, and the result is true exactly when that filter ends up inserted |
| `LensStacks.LensStack.Move` | pcdsdevices/lens.py:168-172 | runs the interlock first (same filter state and insert commands as MakeSafe); a motion command is appended exactly when the interlock reports true; otherwise no command is issued and nothing is returned |

## Left out

- `calcBeamFWHM` and `calcDistanceForSize` (lines 73-85, 201-219): Gaussian-beam numerics need `sqrt` and π on floats, and print a summary. `Transform.Inverse` takes the beam-size model as a function parameter. `Transform.Forward` takes the distance root as a parameter.
- The beam-size branch of `forward` (lines 99-103) gets a two-element numpy array of roots and computes z, x and y for both at once. The model handles one root at a time.
- The `np.isclose` test of line 99 is a float tolerance. It is the boolean parameter `sizeUnchanged`.
- `getDelta` (lines 174-177) calls the external scattering-factor table. It is replaced by the parameter δ, and δ = 0 is excluded (δ > 0 is required). With δ = 0, line 198 raises only if δ is a Python float. A numpy δ of 0 gives an infinite f instead (nan when the radius is 0 too), with a RuntimeWarning.
- Floating-point rounding: every value is an exact real.
- numpy division semantics: `getDelta` (line 175) returns a numpy value, so in the source `f` (line 198) and every `num / f` are numpy floats. A radius of 0 then gives ±inf with a RuntimeWarning instead of `ZeroDivisionError` (nan when the count is 0 too: `0.0 / 0.0`, and the nan carries through the sum, so the result is nan), and the loop carries on to later pairs (a later `None` count still raises `TypeError`). An inverse that sums to exactly 0 with some radius present gives inf, and an infinite inverse gives a focal length of 0.0. The model treats δ as a Python float, so both cases raise: `ZeroRadius` and `NoFocusingPower`.
- `align` and `tweak` (lines 87-95, 131-166): interactive keyboard jogging, motor moves, and writing presets to files.
- The `time.sleep` settle wait in `_makeSafe` (line 238): a timing side effect. Whether the filter moves is the parameter `settled`, the state the mechanism reports after the wait.
- The warnings `_makeSafe` prints (lines 228-229, 240, 243): console output only.
- An empty filter list makes line 231 raise `IndexError`. `MakeSafe` and `Move` require a non-empty list when an attenuator is present.
- The motion itself: `super().move` (line 171) is recorded as an appended command in `issued`, and its status and the wait/timeout/callback arguments are not modelled.
- `XFLS` (lines 23-39), `LensStack.ReadLens` / `CreateLens` (lines 248-262) and the simulation classes (lines 265-275): state wiring, YAML and file I/O, and component declarations.
- The constructor's defaults `zdir=None` and `_zoffset=None` would make `forward` and `inverse` raise `TypeError`. The model takes both as reals in `StageGeometry`.
- Lens-set entries that are not numbers, such as strings from a YAML file, are not modelled. An entry is a real or `None`.
