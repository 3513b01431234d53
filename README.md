# PCRSIM gesture engine in Dafny

PCRSIM teaches the polymerase chain reaction (PCR) with interactive 3-D scenes. A webcam and MediaPipe track the visitor's hands. A hand gesture switches the scene between four modes: bacteria, DNA, enzyme and PCR. Each mode maps pinches and hand motion onto the camera, the model's colour and opacity, the unwinding of the DNA strands, the attachment of the polymerase, and a population of DNA fragments. Beside the main viewer the repository holds a simpler two-hand viewer, a stand-alone thermal-cycle simulation, a camera-driven PCR scene, a renderer for thermophilic cells, a shader front end, and two river projections ("videomapping") steered by the mouse or by camera motion.

This project models the part of that system that turns observations into state. That covers:

- the hands MediaPipe reports, the mouse, keys, wheel steps and the frame time;
- the state they drive: the four-mode cycle with its touch gesture and cooldown, the smoothed and clamped control ramps, the fragment population with its cap, the wrist-velocity history, the stage timer of the thermal cycle and every cell's temperature and energy, the index arithmetic of the fallback sphere mesh, the particle lifetimes, and the river point filter and clamps.

It proves properties of each. It is organised one module per source file:

| module | models |
|---|---|
| `MathUtils` | `src/utils/math_utils.py` |
| `Landmarks`, `BasteriaGestures`, `BasteriaModels`, `BasteriaViewer` | `basteria_mediapipe.py` |
| `VariantViewer` | `basteria_viewer_mediapipe.py` |
| `PcrSimple` | `pcr_simple_simulation.py` |
| `SphereMesh`, `PlyCellRenderer` | `ply_cell_renderer.py` (`SphereMesh` is shared with the camera scene) |
| `PcrCamera` | `pcr_camera_simulation.py` |
| `HandDetector` | `src/hand_tracking/hand_detector.py` |
| `GlRenderer` | `src/renderer/gl_renderer.py` |
| `RiverLines`, `PygameRivers`, `CameraRivers` | `videomapping_pygame.py` and `videomapping_camera.py` |
| `Geometry`, `RealArith`, `Wrappers` | shared points and distances, facts about real arithmetic, and `Option` / `Result` |

Modelling conventions:

- Every Python float is a Dafny `real`. Integers that Python truncates with `int(...)` go through `Geometry.Trunc`.
- Dafny has no square root on `real`. An operation that calls `math.sqrt` or `np.sqrt` receives the root as a parameter `sqrt`, constrained by `RealArith.IsSqrt`. Threshold tests on a root are proved equivalent to tests on squared distances.
- The library calls the code makes become parameters, so that any value they return is covered. These are `math.sin` and `math.cos`, `random`, `time.time()`, and MediaPipe's landmarks and handedness.
- Objects whose methods update fields in place are classes with `modifies` frames. Their methods are proved against pure step functions, and the properties are lemmas about those functions.
- A Python exception on a reachable input is modelled as `Result.Err`.

## Model

| member | source | states |
|---|---|---|
| MathUtils.Clamp | src/utils/math_utils.py:72-84 | the result is the nearest point of `[lo, hi]` when the bounds are ordered (the value itself inside, `lo` below, `hi` above) and `lo` when they are not |
| MathUtils.ClampIdempotent | src/utils/math_utils.py:72-84 | clamping an already clamped value changes nothing |
| MathUtils.ClampMonotone | src/utils/math_utils.py:72-84 | clamping keeps the order of two values |
| MathUtils.NormalizeCoordinates | src/utils/math_utils.py:5-23 | both coordinates end in `[0, 1]`; a non-positive width or height gives 0 for that coordinate |
| MathUtils.NormalizeInside | src/utils/math_utils.py:5-23 | a pixel inside the image is only divided by the image size, never clamped |
| MathUtils.Lerp | src/utils/math_utils.py:26-38 | `a` at `t = 0` and `b` at `t = 1` |
| MathUtils.LerpBetween | src/utils/math_utils.py:26-38 | for `t` in `[0, 1]` the result lies between `a` and `b` |
| MathUtils.SmoothValueBetween | src/utils/math_utils.py:57-69 | with a factor in `[0, 1]` the step lands between the current value and the target and the gap to the target does not grow |
| MathUtils.SmoothValueIsLerp | src/utils/math_utils.py:57-69 | smoothing is linear interpolation with the factor as parameter, and the gap shrinks to `1 - smoothing` of itself |
| MathUtils.Distance2D | src/utils/math_utils.py:41-54 | the distance is never negative |
| MathUtils.Distance2DProperties | src/utils/math_utils.py:41-54 | the distance is symmetric and zero from a point to itself |
| MathUtils.Distance2DBelow | src/utils/math_utils.py:41-54 | the distance is below `c` exactly when the squared distance is below `c * c` |
| MathUtils.MapRange | src/utils/math_utils.py:87-105 | `from_min` maps to `to_min` and `from_max` to `to_max`; an empty source interval (a division by zero) is excluded |
| MathUtils.MapRangeWithin | src/utils/math_utils.py:87-105 | a value of an ordered source interval lands in the ordered target interval |
| MathUtils.MapRangeMonotone | src/utils/math_utils.py:87-105 | between ordered intervals the map preserves order |
| MathUtils.SmoothStep | src/utils/math_utils.py:108-124 | the result is in `[0, 1]`; coinciding edges (a division by zero) are excluded |
| MathUtils.SmoothStepEdges | src/utils/math_utils.py:108-124 | with ordered edges the step is 0 up to the lower edge and 1 from the upper one |
| MathUtils.Vector2D.Magnitude | src/utils/math_utils.py:143-144 | the magnitude is never negative |
| MathUtils.VectorRoundTrips | src/utils/math_utils.py:134-153 | adding then subtracting a vector (and the reverse) is the identity; the tuple holds the two components |
| MathUtils.NormalizeProperties | src/utils/math_utils.py:143-150 | the zero vector has magnitude 0 and normalises to itself; a vector of positive magnitude normalises to a vector of length one that, scaled back by the magnitude, is the vector again |
| BasteriaGestures.LandmarkDistance | basteria_mediapipe.py:430-432 | the 3-D landmark distance is never negative |
| BasteriaGestures.LandmarkDistanceBelow | basteria_mediapipe.py:430-432 | the distance is below a bound exactly when the squared distance is below the squared bound |
| BasteriaGestures.IsFistSquared | basteria_mediapipe.py:434-457 | the fist test (four fingertips nearer the wrist than 0.8 times the index knuckle) holds exactly when each squared distance is below 0.64 times the knuckle's |
| BasteriaGestures.TouchSquared | basteria_mediapipe.py:497-506 | the cross-hand touch (right index tip within 0.06 of the left wrist) holds exactly when the squared distance is below 0.0036 |
| BasteriaGestures.PinchDistance | basteria_mediapipe.py:570 | the thumb-to-index pinch is never negative |
| BasteriaGestures.ZoomLevel | basteria_mediapipe.py:572-576 | the pinch normalised over `[0.02, 0.20]` lies in `[0, 1]`: 0 when closed, 1 when open, linear in between |
| BasteriaGestures.ZoomLevelMonotone | basteria_mediapipe.py:572-576 | a wider pinch never gives a smaller zoom level |
| BasteriaGestures.ZoomTarget | basteria_mediapipe.py:579 | a level in `[0, 1]` asks for a camera distance in `[5, 25]` |
| BasteriaGestures.ZoomStep | basteria_mediapipe.py:582-583 | the new camera distance is always in `[2, 50]` |
| BasteriaGestures.ZoomStepSmooths | basteria_mediapipe.py:579-583 | from an in-range distance the clamp never acts: the step is smoothing by 0.4, lands between the old distance and the target, and leaves 60% of the gap |
| BasteriaGestures.BacteriaFactor | basteria_mediapipe.py:641-652 | the bacteria factor lies in `[0, 1]`: 1 below a pinch of 0.015, 0 from 0.1 on |
| BasteriaGestures.BacteriaFactorAntitone | basteria_mediapipe.py:645-652 | opening the pinch never raises the factor |
| BasteriaGestures.BacteriaEffect | basteria_mediapipe.py:654-660 | shake and blend equal the factor, the opacity stays in `[0.4, 1]`, and the colour is `[1, 1 - f, 1 - f]` |
| BasteriaGestures.StrandSeparation | basteria_mediapipe.py:679-680 | the strand factor lies in `[0, 1]`: 0 for a pinch up to 0.02, 1 from 0.17 on |
| BasteriaGestures.EnzymeAttachment | basteria_mediapipe.py:686-695 | the attachment lies in `[0, 1]`: 1 for a pinch up to 0.02, 0 from 0.12 on |
| BasteriaGestures.EnzymeAttachmentAntitone | basteria_mediapipe.py:690-695 | opening the pinch never raises the attachment |
| BasteriaGestures.Interp | basteria_mediapipe.py:516 | NumPy's `interp` over a two-point table: constant outside it and between the two values inside |
| BasteriaGestures.HandSeparation | basteria_mediapipe.py:511-516 | the hand-separation factor lies in `[0, 1]`: 0 for hands at most 0.25 apart, 1 from 0.8 apart |
| BasteriaGestures.PushSample | basteria_mediapipe.py:350 | the bounded history holds `min(n + 1, 5)` samples, the newest last and the oldest dropped when full |
| BasteriaGestures.HandVelocity | basteria_mediapipe.py:628-637 | the wrist speed is never negative and is 0 with at most two samples or when time has not advanced |
| BasteriaGestures.HandVelocityExample | basteria_mediapipe.py:630-637 | three samples over two seconds whose ends are 1 apart give speed 0.5 |
| BasteriaModels.SpawnAllProperties | basteria_mediapipe.py:208-220 | the spawning loop keeps the old fragments as a prefix, adds one full-life fragment per attempt until the cap of 200, and never shrinks the list |
| BasteriaModels.SpawnProperties | basteria_mediapipe.py:206-220 | spawning adds at most two full-life fragments, only for a hand faster than 0.05, keeps the old ones first and never passes 200 |
| BasteriaModels.SurvivorsMembers | basteria_mediapipe.py:225 | the filter keeps exactly the fragments whose life is positive |
| BasteriaModels.SurvivorsAppend | basteria_mediapipe.py:225 | the filter works piece by piece, so survivors keep their relative order |
| BasteriaModels.DecayProperties | basteria_mediapipe.py:226-227 | ageing keeps every fragment in place and takes exactly the decay rate off its life |
| BasteriaModels.TickProperties | basteria_mediapipe.py:224-227 | after filtering and ageing no fragment has less than `1 - rate` life and none was added |
| BasteriaModels.UpdatedBounded | basteria_mediapipe.py:203-227 | an update never takes the population past 200 |
| BasteriaModels.UpdatedFromEmpty | basteria_mediapipe.py:203-227 | a fast hand over no fragments gives exactly the two given poses with 179 frames of life |
| BasteriaModels.PCRModel.constructor | basteria_mediapipe.py:182-186 | no fragments; records whether the base fragment loaded |
| BasteriaModels.PCRModel.TickFragments | basteria_mediapipe.py:224-227 | the fragments become the survivors, aged by the rate |
| BasteriaModels.PCRModel.RemoveExpired | basteria_mediapipe.py:225 | the list comprehension leaves exactly the survivors |
| BasteriaModels.PCRModel.AgeAll | basteria_mediapipe.py:226-227 | the loop takes the rate off every fragment's life |
| BasteriaModels.PCRModel.Update | basteria_mediapipe.py:203-227 | the new fragments are `Updated` of the old ones: spawn, filter, age; at most 200 before and after |
| BasteriaModels.PCRModel.UpdateFragments | basteria_mediapipe.py:229-236 | filter and age at rate 10 for a still hand and 1 otherwise; nothing changes when the fragment did not load |
| BasteriaModels.EnzymePath | basteria_mediapipe.py:274-278 | the enzyme is at the start `(0, 5, 1)` for factor 0 and at the target `(0, 1, 1)` for factor 1 |
| BasteriaModels.EnzymePathSegment | basteria_mediapipe.py:274-278 | the path is the vertical segment `(0, 5 - 4a, 1)`, between heights 1 and 5 for `a` in `[0, 1]` |
| BasteriaModels.EnzymeModel.constructor | basteria_mediapipe.py:240-250 | the enzyme rests at `(0, 5, 0)`, detached, with no progress |
| BasteriaModels.EnzymeModel.AttachEnzyme | basteria_mediapipe.py:270-284 | a loaded enzyme moves onto its path, records the factor and is attached from 0.99 on; an unloaded one is left alone |
| BasteriaModels.ShiftXProperties | basteria_mediapipe.py:176-178 | a shift moves x only, by exactly `dx`, and shifting back undoes it |
| BasteriaModels.SeparateStrandsAsWrittenRaises | basteria_mediapipe.py:172-178 | with only the second strand missing, the code as written raises a `TypeError` |
| BasteriaModels.SeparateStrandsCorrected | basteria_mediapipe.py:172-178 | the corrected guard never raises and agrees with the code as written wherever that does not raise |
| BasteriaModels.SeparatedGap | basteria_mediapipe.py:176-178 | corresponding vertices of the two strands end `20 * factor` further apart along x |
| BasteriaModels.ADNModel.constructor | basteria_mediapipe.py:135-152 | the displaced copies are the originals when both strands loaded, and absent otherwise |
| BasteriaModels.ADNModel.SeparateStrandsStep | basteria_mediapipe.py:172-178 | with both strands loaded the displaced copies are the separated originals; otherwise nothing changes |
| BasteriaModels.HelicaseZ | basteria_mediapipe.py:309-313 | `z` is -8 for factor 0 and 10 for factor 1 |
| BasteriaModels.HelicaseZRange | basteria_mediapipe.py:309-313 | for a factor in `[0, 1]` the helicase stays in `[-8, 10]` and moves forward as the factor grows |
| BasteriaModels.HelicaseModel.constructor | basteria_mediapipe.py:287-290 | at the origin with angle 0 |
| BasteriaModels.HelicaseModel.Update | basteria_mediapipe.py:309-313 | the helicase sits at `(0, 0, -8 + 18 * factor)` and keeps its angle |
| BasteriaViewer.NextIndex | basteria_mediapipe.py:602 | the next mode index is always a valid index of the four-mode list |
| BasteriaViewer.AdvanceModular | basteria_mediapipe.py:600-603 | k mode changes move the index k places round the list of four, modulo four |
| BasteriaViewer.CycleOrder | basteria_mediapipe.py:600-603 | the touch gesture cycles BASTERIA, ADN, ENZYME, PCR and back, so four changes return to the starting mode |
| BasteriaViewer.CooldownStepProperties | basteria_mediapipe.py:497-506 | the gate fires exactly when the cooldown is 0 and the hands touch; the cooldown stays within 0..45; a fired change followed by the right hand leaves 44; without a right hand the cooldown is held |
| BasteriaViewer.NoTransitionWhileCooling | basteria_mediapipe.py:556-558 | as long as the cooldown outlasts the frames, no touch changes the mode |
| BasteriaViewer.Debounce | basteria_mediapipe.py:556-612 | a touch that changes the mode is followed by at least 44 frames in which holding the touch changes nothing |
| BasteriaViewer.LastHandIsLast | basteria_mediapipe.py:481-494 | the hand kept for a side is absent exactly when no hand of that side was reported, and otherwise is a hand of that side after which none of that side follows |
| BasteriaViewer.CollectHands | basteria_mediapipe.py:476-494 | the detection loop keeps the last right hand and the last left hand of the frame |
| BasteriaViewer.HandSeparationOf | basteria_mediapipe.py:509-519 | the DNA-mode hand separation lies in [0, 1] and is 0 unless both hands are seen |
| BasteriaViewer.IndexOf | basteria_mediapipe.py:889 | list.index gives the first position that holds the value |
| BasteriaViewer.NextSpeed | basteria_mediapipe.py:887-890 | key A always picks one of the four listed speeds |
| BasteriaViewer.NextSpeedTable | basteria_mediapipe.py:887-890 | key A steps 0.1 to 0.2 to 0.5 to 1.0 and back to 0.1 |
| BasteriaViewer.NextSpeedCycle | basteria_mediapipe.py:889-890 | four presses return a listed speed to itself; an unlisted speed is treated as index 1 and becomes 0.5 |
| BasteriaViewer.AutoRotatedRange | basteria_mediapipe.py:418-422 | auto-rotation adds the speed and subtracts at most one turn, keeps an angle of one turn within one turn, and leaves an angle pushed past two turns beyond one |
| BasteriaViewer.Viewer.constructor | basteria_mediapipe.py:318-410 | the viewer starts at distance 15, unrotated, auto speed 0.2, in BASTERIA mode with cooldown 0, an empty hand history, a white opaque model, and the models loaded from the given files |
| BasteriaViewer.Viewer.CycleState | basteria_mediapipe.py:600-621 | a mode change moves to the next mode, sets the cooldown to 45, resets the enzyme to detached at its rest position and tilts the camera to 30 degrees |
| BasteriaViewer.Viewer.ProcessRightHand | basteria_mediapipe.py:552-583 | while cooling down the right hand only drains the cooldown by one and leaves the pose; otherwise the pose is `RightHandStep`: it rotates by 150 times its move since the remembered position, remembers its position and zooms 40% of the way to the pinch target within [2, 50] |
| BasteriaViewer.Viewer.LeftHandPcr | basteria_mediapipe.py:626-638 | in PCR mode the wrist joins the five-sample history and the history's speed drives the fragment update |
| BasteriaViewer.Viewer.LeftHandBasteria | basteria_mediapipe.py:641-660 | in BASTERIA mode the pinch ramp sets shake, colour blend, opacity and the white-to-red colour |
| BasteriaViewer.Viewer.LeftHandEnzyme | basteria_mediapipe.py:683-697 | in ENZYME mode a loaded enzyme is attached by one minus the pinch normalised over [0.02, 0.12]; without an enzyme nothing changes |
| BasteriaViewer.Viewer.ProcessLeftHand | basteria_mediapipe.py:623-697 | the left hand acts only on the model of the current mode and leaves the others unchanged; the look is `LeftLook` of the mode |
| BasteriaViewer.Viewer.ProcessHandTracking | basteria_mediapipe.py:461-527 | a failed read or a frame without hands clears the left-hand flag and leaves the mode, cooldown, pose, history, look and the models as they were; otherwise, for the last hands seen, the flag records a left hand, the mode index and cooldown follow one gate-and-drain step, the pose is `HandsPose` and the look `LeftLook`, the DNA mode stores the separation and moves the helicase, a fired change leaves the enzyme at rest unless the new mode drives it, and a left hand acts on the model of the mode after the gate: history and fragments in PCR mode, displaced strands in DNA mode, the attachment in enzyme mode, every other model unchanged |
| BasteriaViewer.Viewer.ProcessHands | basteria_mediapipe.py:497-527 | the gate, the DNA-mode separation and the per-hand handlers in order: the pose is `HandsPose` (a fired change tilts to 30 degrees and blocks the right hand, else a right hand past its cooldown steers), the look is `LeftLook` of the mode after the gate, a left hand pushes the history and updates the fragments in PCR mode, displaces the strands in DNA mode and attaches the enzyme in enzyme mode, the other models stay, and a fired change leaves the enzyme at rest unless the new mode drives it |
| BasteriaViewer.Viewer.ProcessPresentHands | basteria_mediapipe.py:524-527 | a right hand past its cooldown sets the pose to `RightHandStep` of its mean position, otherwise the pose stays; the look is `LeftLook`; a left hand pushes the history and updates the fragments in PCR mode, displaces the strands in DNA mode and attaches the enzyme in enzyme mode, and every model the mode does not drive, all of them without a left hand, stays |
| BasteriaViewer.Viewer.TouchGate | basteria_mediapipe.py:497-506 | the mode changes exactly when the cooldown is 0 and the right index tip touches the left wrist, and then the mode follows its index, the camera tilts to 30 degrees and the enzyme is detached at rest; otherwise nothing changes |
| BasteriaViewer.Viewer.GateAndSeparate | basteria_mediapipe.py:497-518 | the gate as in `TouchGate`, the separation of the hands stored and the helicase moved only in DNA mode; the look stays and the pose changes only by the gate's tilt |
| BasteriaViewer.RightHandStep | basteria_mediapipe.py:562-583 | past the cooldown the right hand is remembered, rotates nothing when no position was remembered or it has not moved, and zooms 40% toward its pinch target within [2, 50] |
| BasteriaViewer.RightHandRotationTelescopes | basteria_mediapipe.py:562-567 | over two steered frames the rotations add up to 150 times the hand's offset from the position remembered before them |
| BasteriaViewer.LeftLook | basteria_mediapipe.py:623-697 | without a left hand or outside bacteria mode the look stays; in bacteria mode the blend equals the shake and the colour fades from white to red with it |
| BasteriaViewer.HandsPose | basteria_mediapipe.py:497-527 | a fired change keeps the pose but the 30-degree tilt; without a right hand or while cooling the pose stays; a right hand that steers is remembered at its mean position |
| BasteriaViewer.Viewer.UpdateHandSeparation | basteria_mediapipe.py:509-522 | the separation is the interpolated gap of the two hands, or 0 with one missing, and the helicase is placed by it |
| BasteriaViewer.Viewer.UpdateAutoRotation | basteria_mediapipe.py:418-422 | each frame the yaw advances by the auto speed and wraps once at 360 |
| BasteriaViewer.Viewer.HandleMouseInput | basteria_mediapipe.py:712-721 | a held button with a previous position rotates by half the relative move; the position is remembered only while the button is held |
| BasteriaViewer.Viewer.HandleKey | basteria_mediapipe.py:875-892 | Escape stops the loop; C, H and F toggle their flags; R resets distance, rotation and opacity; A steps the auto speed; every other field is left as it was |
| BasteriaViewer.Viewer.HandleWheel | basteria_mediapipe.py:893-894 | one wheel notch zooms by one unit, clamped to [2, 50] |
| BasteriaViewer.Viewer.UpdatePcr | basteria_mediapipe.py:815-820 | the fragments age once per frame, ten times faster without a left hand; without a base fragment nothing changes |
| BasteriaViewer.Viewer.UpdateScene | basteria_mediapipe.py:904-912 | in DNA mode the strands are re-derived from the hand separation, in PCR mode the fragments age again, and other models are unchanged |
| Landmarks.MeanPositionWithin | basteria_mediapipe.py:485-493 | the mean landmark position of a hand whose landmarks all lie in a box lies in that box |
| VariantViewer.PlanarPinch | basteria_viewer_mediapipe.py:188-198 | the pinch is a planar distance from thumb tip to index tip, never negative |
| VariantViewer.VariantZoomLevel | basteria_viewer_mediapipe.py:283-285 | the pinch normalised over [0.02, 0.15] and clipped: 0 at or below 0.02, 1 at or above 0.15, linear in between |
| VariantViewer.VariantZoomTarget | basteria_viewer_mediapipe.py:286 | the target distance runs from 25 for a closed pinch to 5 for an open one |
| VariantViewer.VariantZoomInverted | basteria_viewer_mediapipe.py:283-286 | a wider pinch never asks for a farther camera |
| VariantViewer.VariantZoomStep | basteria_viewer_mediapipe.py:289-290 | the zoomed distance always lies in [2, 50] |
| VariantViewer.VariantZoomStepSmooths | basteria_viewer_mediapipe.py:289-290 | from an in-range distance the step moves a tenth of the way to the target, stays between the two and leaves nine tenths of the gap |
| VariantViewer.OpacityStep | basteria_viewer_mediapipe.py:320-334 | a sideways move above 0.02 fades by three times the move within [0.1, 1], one below 0.01 restores 0.02 up to 1, otherwise or without a previous palm the opacity stays; [0.1, 1] is preserved |
| VariantViewer.HeldStillRecovers | basteria_viewer_mediapipe.py:330-334 | a left hand held still for k frames restores 0.02 per frame until the model is fully opaque |
| VariantViewer.RightHandStep | basteria_viewer_mediapipe.py:267-292 | the right hand rotates only when a previous palm exists, and then by 150 times the palm's move from it, zooms by the pinch, remembers its palm, leaves the model's look alone and keeps the ranges |
| VariantViewer.LeftHandStep | basteria_viewer_mediapipe.py:306-336 | the left hand makes the model red exactly for a pinch under 0.05 and white otherwise, applies the opacity rule, remembers its palm, leaves the camera alone and keeps the ranges |
| VariantViewer.RedModeSquared | basteria_viewer_mediapipe.py:312 | red mode holds exactly when the squared planar pinch is below 0.0025 |
| VariantViewer.AllHandsInRange | basteria_viewer_mediapipe.py:213-229 | whatever hands a frame reports, distance stays in [2, 50], opacity in [0.1, 1] and the colour matches the red flag |
| VariantViewer.LeftHandsKeepCamera | basteria_viewer_mediapipe.py:213-229 | a frame with only left hands leaves the camera and the right palm as they were |
| VariantViewer.Forget | basteria_viewer_mediapipe.py:242-244 | a frame without hands forgets both palm positions and nothing else |
| VariantViewer.RightHandAfterForget | basteria_viewer_mediapipe.py:270-277 | after a frame without hands the next right hand does not rotate the camera |
| VariantViewer.Viewer.constructor | basteria_viewer_mediapipe.py:139-171 | the viewer starts at distance 15, unrotated, with a white opaque model, no remembered palm or cursor, and camera and hand control on |
| VariantViewer.Viewer.ProcessRightHand | basteria_viewer_mediapipe.py:267-292 | the right-hand handler changes the state exactly as the right-hand step says and keeps the ranges |
| VariantViewer.Viewer.ProcessLeftHand | basteria_viewer_mediapipe.py:306-336 | the left-hand handler changes the state exactly as the left-hand step says and keeps the ranges |
| VariantViewer.Viewer.ProcessHandTracking | basteria_viewer_mediapipe.py:200-244 | with hand control off or a failed read nothing changes; a frame with hands applies each in report order; a frame without hands forgets both palms |
| VariantViewer.Viewer.HandleMouseInput | basteria_viewer_mediapipe.py:351-364 | a held button with a previous cursor rotates by half the cursor's move; the cursor is remembered only while the button is held |
| VariantViewer.Viewer.HandleKey | basteria_viewer_mediapipe.py:411-427 | quit and Escape stop the loop, C and H toggle their flags, R resets distance and rotation, and nothing else changes |
| VariantViewer.Viewer.HandleWheel | basteria_viewer_mediapipe.py:429-431 | one wheel notch zooms by one unit, clamped to [2, 50] |
| PcrSimple.NextStage | pcr_simple_simulation.py:182-196 | every step changes the stage, and the cycle counter grows by one exactly on the step out of extension |
| PcrSimple.FourStepsOneCycle | pcr_simple_simulation.py:182-196 | any 4n stage steps return to the starting stage with exactly n more cycles |
| PcrSimple.TargetTemp | pcr_simple_simulation.py:46-53 | the target is 94 for denaturation, 55 for annealing, 72 for extension and 25 for cooling, so always within [25, 94] |
| PcrSimple.CellColor | pcr_simple_simulation.py:76-83 | the colour is red above 80, orange in (60, 80], yellow in (40, 60] and green at or below 40, each exactly on its band |
| PcrSimple.TempStepApproaches | pcr_simple_simulation.py:72-73 | with 0 <= 2dt <= 1 the temperature is the smoothing of factor 2dt toward the target, lies between the old temperature and the target and never overshoots |
| PcrSimple.NewCell | pcr_simple_simulation.py:27-40 | a new cell sits at its position at 25 degrees with target 25, full energy, active and green |
| PcrSimple.NearMouseSquared | pcr_simple_simulation.py:56-60 | the mouse acts on a cell exactly when a mouse point exists and its squared distance is below 9 |
| PcrSimple.Energized | pcr_simple_simulation.py:56-90 | a near mouse recharges 10dt up to 100 and activates; an active cell then loses 5dt and is exhausted at or below 0; an inactive cell out of reach keeps its energy; energy never passes 100 |
| PcrSimple.MouseStep | pcr_simple_simulation.py:56-69 | out of reach the cell is unchanged; a near mouse recharges up to 100 and activates, and leaves temperature, colour and phase alone |
| PcrSimple.HeatStep | pcr_simple_simulation.py:46-83 | the stage sets the target and the colour follows the new temperature; position, energy and activity stay |
| PcrSimple.DrainStep | pcr_simple_simulation.py:86-90 | an inactive cell is unchanged; an active one loses 5dt, stays active exactly while its energy is positive, and turns grey when exhausted |
| PcrSimple.WobbleStep | pcr_simple_simulation.py:93-94 | the phase advances by 2dt and only the height moves |
| PcrSimple.CellStepProperties | pcr_simple_simulation.py:42-94 | one cell update approaches the stage's target, follows the recharge-then-drain rule, colours an active cell by its temperature and a freshly exhausted one grey, and moves x and z only under the mouse |
| PcrSimple.ExhaustedStaysExhausted | pcr_simple_simulation.py:56-90 | an exhausted cell out of the mouse's reach stays exhausted with the same energy |
| PcrSimple.ResetCell | pcr_simple_simulation.py:203-209 | a reset cell is at 25 degrees, full energy, active and back at its original position; target, colour and phase stay |
| PcrSimple.SimpleCell.constructor | pcr_simple_simulation.py:27-40 | the cell object starts in the new-cell state and remembers its original position |
| PcrSimple.SimpleCell.Update | pcr_simple_simulation.py:42-94 | the cell object changes exactly as one cell update says |
| PcrSimple.SimpleCell.ApplyMouse | pcr_simple_simulation.py:56-69 | the mouse part of the update changes the cell exactly as the mouse step says |
| PcrSimple.SimpleCell.Pull | pcr_simple_simulation.py:66-69 | the pull moves each coordinate by its gap to the mouse times the influence and dt/2 |
| PcrSimple.SimpleCell.Reset | pcr_simple_simulation.py:203-209 | the cell object is reset as the reset step says |
| PcrSimple.SimpleCell.Heat | pcr_simple_simulation.py:46-83 | the heat part of the update changes the cell exactly as the heat step says |
| PcrSimple.SimpleCell.Drain | pcr_simple_simulation.py:86-90 | the drain part of the update changes the cell exactly as the drain step says |
| PcrSimple.Clock | pcr_simple_simulation.py:217-222 | the timer grows by dt; once it reaches 3 seconds the stage advances once and the timer restarts at 0 |
| PcrSimple.ClockBounded | pcr_simple_simulation.py:217-222 | from a timer below 3 seconds a step shorter than 3 seconds keeps the timer in [0, 3) |
| PcrSimple.Simulation.constructor | pcr_simple_simulation.py:99-140 | a cooling simulation at cycle 0 with timer 0, not paused, no mouse point and the button up, the camera 10 units away and unrotated, and one fresh cell per seed that remembers its position |
| PcrSimple.Simulation.NextPcrStage | pcr_simple_simulation.py:182-196 | the stage and cycle counter advance as the stage step says and the timer restarts at 0 |
| PcrSimple.Simulation.ResetSimulation | pcr_simple_simulation.py:198-209 | the simulation is back to cooling, timer 0 and cycle 0, and every cell is reset to its original position |
| PcrSimple.Simulation.Update | pcr_simple_simulation.py:211-226 | while paused nothing changes; otherwise the clock ticks and every cell is updated with the stage now shown and the mouse point |
| PcrSimple.Simulation.UpdateCells | pcr_simple_simulation.py:225-226 | every cell is updated exactly once with the current stage and mouse point |
| PcrSimple.CursorToScene | pcr_simple_simulation.py:162-165 | a window pixel maps to the plane z = 0, x in [-8, 8) and y in (-4, 4] |
| PcrSimple.WheelZoom | pcr_simple_simulation.py:171-174 | wheel button 4 brings the camera half a unit closer and 5 half a unit away, never closer than 2 nor further than 20, so a distance in [2, 20] stays there; other buttons leave it |
| PcrSimple.EventStep | pcr_simple_simulation.py:142-178 | a quit or escape changes nothing; only P toggles the pause; the cycle count changes only on the space bar (by one) or R (to 0); the zoom range and a mouse point inside the shown region are kept |
| PcrSimple.FirstStop | pcr_simple_simulation.py:144-149 | the position of the first quit or escape, all events before it being neither, or the number of events when there is none |
| PcrSimple.EventsKeepRanges | pcr_simple_simulation.py:142-180 | over any run of events with the cursor in the window, the zoom stays in [2, 20] and the mouse point in the region the window shows |
| PcrSimple.Simulation.HandleEvent | pcr_simple_simulation.py:143-178 | the controls change as `EventStep` says and the cells only on R, which resets each of them |
| PcrSimple.Simulation.HandleEvents | pcr_simple_simulation.py:142-180 | true exactly when no event is a quit or escape; the events up to the first such are handled in order and the rest dropped; the cells are reset once if an R came before the stop |
| SphereMesh.CellIndicesInRange | ply_cell_renderer.py:109-119 | every index a grid cell contributes names one of the (s + 1) * s vertices |
| SphereMesh.RowInRange | ply_cell_renderer.py:110-119 | the first j cells of a row name only existing vertices and contribute j times the cell's count of indices |
| SphereMesh.RowsInRange | ply_cell_renderer.py:109-119 | every index of the first r rows names an existing vertex |
| SphereMesh.RowsLength | ply_cell_renderer.py:109-119 | r full rows hold s(6r - 3) indices, three fewer per cell in the last row, since the first row skips its first triangle and the last row its second |
| SphereMesh.SphereIndicesInRange | ply_cell_renderer.py:109-119 | every index of the triangle list names one of the (s + 1) * s vertices |
| SphereMesh.SphereIndicesLength | ply_cell_renderer.py:109-119 | the triangle list has 6s(s - 1) entries, that is 2s(s - 1) triangles |
| SphereMesh.SphereGeometryCounts | ply_cell_renderer.py:95-119 | a sphere of s segments has (s + 1) * s vertex colours and 6s(s - 1) indices, each naming an existing vertex |
| SphereMesh.BuildSphere | ply_cell_renderer.py:95-124 | the two loops of the fallback geometry build the green vertex colours and the triangle list of a sphere of s segments |
| SphereMesh.VertexColors | ply_cell_renderer.py:95-106 | the vertex loop gives (s + 1) * s vertices, every one coloured (0.2, 0.8, 0.2) |
| SphereMesh.TriangleIndices | ply_cell_renderer.py:109-119 | the triangle loop visits every cell row by row and yields the sphere's index list |
| SphereMesh.RowIndices | ply_cell_renderer.py:110-119 | the inner loop yields the triangles of one row's cells, left to right |
| PlyCellRenderer.PlyCellModel.constructor | ply_cell_renderer.py:18-81 | a model whose file cannot be read holds the default sphere of 16 segments, centred at the origin with the unit box |
| PlyCellRenderer.PlyCellModel.CreateDefaultGeometry | ply_cell_renderer.py:83-126 | the fallback geometry is the sphere of the model's segments, centred at the origin, with the box [-1, 1] on every axis |
| PlyCellRenderer.ParticleStep | ply_cell_renderer.py:159-165 | a particle loses dt of lifetime, moves by its velocity times dt, and its velocity is damped to 98% with 2dt of gravity off the vertical; colour, maximum lifetime and size stay |
| PlyCellRenderer.AgedParticlesMembers | ply_cell_renderer.py:157-168 | after a frame the list holds exactly the stepped particles whose lifetime is still positive, and is never longer |
| PlyCellRenderer.AgedParticlesAppend | ply_cell_renderer.py:159-168 | the update works particle by particle, so survivors keep their order |
| PlyCellRenderer.Stepped | ply_cell_renderer.py:159-165 | before removal, every particle is stepped in place |
| PlyCellRenderer.Places | ply_cell_renderer.py:159 | the places 0 .. n - 1 stand for the identities of the list's particles |
| PlyCellRenderer.UpdateParticlesAsWrittenRaises | ply_cell_renderer.py:159-168 | a surviving particle followed by one that expires in the frame makes the loop as written raise, while the intended update keeps the survivor |
| PlyCellRenderer.AgedSurvivorOnly | ply_cell_renderer.py:159-168 | of a survivor and an expiring particle only the stepped survivor remains |
| PlyCellRenderer.RemovePassNoExpiry | ply_cell_renderer.py:159-168 | when no particle expires the removal pass removes nothing and does not raise |
| PlyCellRenderer.PickPlaces | ply_cell_renderer.py:159-168 | keeping every place keeps every particle |
| PlyCellRenderer.AgedParticlesAllAlive | ply_cell_renderer.py:159-168 | when every stepped particle is still alive the update is the stepped list |
| PlyCellRenderer.UpdateParticlesNoExpiry | ply_cell_renderer.py:157-168 | in a frame in which no particle expires the loop as written agrees with the intended update |
| PlyCellRenderer.CellRenderer.constructor | ply_cell_renderer.py:131-139 | the renderer starts without energy particles |
| PlyCellRenderer.CellRenderer.UpdateEnergyParticles | ply_cell_renderer.py:157-168 | the particle list becomes the stepped particles whose lifetime is still positive, in order |
| PlyCellRenderer.BaseColor | ply_cell_renderer.py:201-212 | an explicit colour wins; otherwise red above 80, orange in (60, 80], yellow in (40, 60] and green at or below 40 |
| PlyCellRenderer.GlowAlpha | ply_cell_renderer.py:186-193 | the glow is drawn exactly above 80 degrees, with alpha (t - 80)/40, within (0, 0.5] up to 100 degrees |
| PlyCellRenderer.CreateCell | ply_cell_renderer.py:353-390 | each species record carries the given position, a maximum above its optimum, and an efficiency between 0.8 and 1 |
| PcrCamera.BasteriaPlyModel.constructor | pcr_camera_simulation.py:89-166 | a model whose file cannot be read holds the default sphere of 16 segments, centred at the origin |
| PcrCamera.BasteriaPlyModel.CreateDefaultGeometry | pcr_camera_simulation.py:168-208 | the fallback geometry is the sphere of the model's segments, centred at the origin |
| PcrCamera.BasteriaCell.constructor | pcr_camera_simulation.py:64-79 | a new cell sits at its spawn point and remembers it, at 25 degrees, undenatured, with full energy, active and green |
| PcrCamera.BasteriaCell.Update | pcr_camera_simulation.py:81-84 | the cell update changes nothing |
| PcrCamera.BasteriaCell.Reset | pcr_camera_simulation.py:297-304 | a reset cell is back at its spawn point, undenatured, at 25 degrees, with full energy and active; its colour stays |
| PcrCamera.DenaturedCount | pcr_camera_simulation.py:355-362 | the denatured count never exceeds the number of cells |
| PcrCamera.DenaturedCountZero | pcr_camera_simulation.py:361-362 | no cell is counted unless its level is above 0.8 |
| PcrCamera.DenaturedCountAll | pcr_camera_simulation.py:361-362 | every cell is counted when every level is above 0.8 |
| PcrCamera.TotalTemperatureBounds | pcr_camera_simulation.py:356-363 | the summed temperature lies between n times the lowest and n times the highest bound |
| PcrCamera.MeanTemperatureWithin | pcr_camera_simulation.py:363-368 | the reported average temperature lies within the bounds of the cells' temperatures |
| PcrCamera.PalmToWorld | pcr_camera_simulation.py:321-326 | the palm maps to the scene by an invertible affine map: 20 units across and 10 high for an in-image palm, depth scaled by 15 |
| PcrCamera.Zoom | pcr_camera_simulation.py:287-291 | wheel button 4 zooms in by one down to 5, button 5 out by one up to 30, other events leave the distance, and [5, 30] is preserved |
| PcrCamera.ZoomedInRange | pcr_camera_simulation.py:287-291 | any run of events keeps an in-range distance within [5, 30] |
| PcrCamera.Handled | pcr_camera_simulation.py:271-276 | the events handled are exactly those before the first quit or Escape |
| PcrCamera.ResetState | pcr_camera_simulation.py:297-304 | a reset cell is at its spawn point, at 25 degrees, undenatured, with full energy, active and its colour unchanged |
| PcrCamera.SceneStep | pcr_camera_simulation.py:271-291 | a stopping event changes nothing; the distance is `Zoom` of the event; C and only C toggles the camera image, P and only P the pause; only a left-button drag rotates |
| PcrCamera.SceneStepsSummary | pcr_camera_simulation.py:269-293 | a run of events zooms as `Zoomed`, toggles the camera image and the pause once per C and per P, and rotates by the sum of its drags |
| PcrCamera.PcrCameraSimulation.constructor | pcr_camera_simulation.py:213-258 | the scene starts with the camera 15 units away and unrotated, one fresh cell, camera shown and unpaused, and statistics of one cell, none denatured, average 25 |
| PcrCamera.PcrCameraSimulation.ResetSimulation | pcr_camera_simulation.py:295-304 | every cell is back at its spawn point, cool, undenatured, with full energy and active, its colour kept: its state is `ResetState` of the old one |
| PcrCamera.PcrCameraSimulation.HandPositions | pcr_camera_simulation.py:306-344 | a failed read gives no points; otherwise one scene point per detected hand, in order, mapped from its palm |
| PcrCamera.PcrCameraSimulation.Update | pcr_camera_simulation.py:346-368 | while paused the statistics stay; otherwise the denatured count is recounted and the average refreshed only when there are cells; the total is never recounted |
| PcrCamera.PcrCameraSimulation.UpdateCells | pcr_camera_simulation.py:355-363 | the loop returns the denatured count and the summed temperature of the cells |
| PcrCamera.PcrCameraSimulation.HandleEvent | pcr_camera_simulation.py:271-291 | quit and Escape stop; the view settings are `SceneStep` of the old ones (C and P toggle, a left drag rotates by 0.01 per pixel, the wheel zooms within [5, 30]); R resets every cell to spawn point, 25 degrees, undenatured, full energy, active, colour kept, and every other event leaves the cells |
| PcrCamera.PcrCameraSimulation.HandleEvents | pcr_camera_simulation.py:269-293 | the loop keeps running exactly when no event stops it; the view settings are `SceneSteps` of the events handled before a stop, and every cell is reset exactly when an R is among them |
| HandDetector.IndexOf | src/hand_tracking/hand_detector.py:35-44 | every kept landmark names one of MediaPipe's 21 hand landmarks |
| HandDetector.Entry | src/hand_tracking/hand_detector.py:114-126 | an entry keeps the landmark's normalised x and y, and its pixel is the product with the image side truncated toward zero, like Python's `int` |
| HandDetector.EntryPixelInImage | src/hand_tracking/hand_detector.py:116-121 | a landmark inside the unit square falls on a pixel of the image |
| HandDetector.ScaledPixel | src/hand_tracking/hand_detector.py:120-121 | a coordinate in [0, 1) times a side of n pixels truncates into [0, n) |
| HandDetector.ExtractLandmarks | src/hand_tracking/hand_detector.py:99-128 | the result maps each of the eight names to the entry built from the landmark with its MediaPipe index |
| HandDetector.HandCenter | src/hand_tracking/hand_detector.py:130-150 | with a wrist and a middle-finger base the centre is their midpoint, equally far from both and between them on each axis; otherwise (0.5, 0.5) |
| HandDetector.HandArea | src/hand_tracking/hand_detector.py:152-172 | with a wrist and a middle fingertip the area is pi/4 times their squared distance, the circle on that diameter; otherwise 0.01; never negative |
| HandDetector.ExtractedCenterAndArea | src/hand_tracking/hand_detector.py:68-74 | for an extracted hand the centre is the midpoint of landmarks 0 and 9 and the area comes from landmarks 0 and 12 |
| HandDetector.DetectHands | src/hand_tracking/hand_detector.py:46-97 | no result exactly when processing failed or found no hand; otherwise one record per hand in MediaPipe's order, with its label, score, landmarks, centre and area, and a count equal to the number of records |
| HandDetector.FirstMostConfident | src/hand_tracking/hand_detector.py:186 | the index of a hand whose confidence no other hand exceeds, and the first such, as Python's `max` picks |
| HandDetector.PrimaryHandPosition | src/hand_tracking/hand_detector.py:174-189 | a position exactly when hands were detected, and then the centre of the first most confident hand |
| Geometry.Trunc | src/hand_tracking/hand_detector.py:120-121 | Python's `int` of a float: the integer toward zero, within one of the value |
| GlRenderer.DetectionStep | src/renderer/gl_renderer.py:167-169 | one frame closes 10% of the gap to 1 when the hand is seen and to 0 when it is not, and keeps a level in [0, 1] there |
| GlRenderer.DetectionAfterInRange | src/renderer/gl_renderer.py:167-172 | from the initial level 0, or any level in [0, 1], the detection level stays in [0, 1] over any run of frames |
| GlRenderer.DetectionApproachesOne | src/renderer/gl_renderer.py:167-169 | after k frames with the hand in view the gap to full detection is 0.9^k times the initial gap |
| GlRenderer.PositionStepBetween | src/renderer/gl_renderer.py:162-165 | a smoothed coordinate lands between the old value and the reading and closes 15% of the gap |
| GlRenderer.Renderer.constructor | src/renderer/gl_renderer.py:33-41 | the hand starts at (0.5, 0.5), undetected, at intensity 1, and the smoothed copies agree with the shader inputs |
| GlRenderer.Renderer.UpdateHandPosition | src/renderer/gl_renderer.py:154-172 | the position smooths toward the reading with factor 0.15 and detection toward 1 or 0 with 0.1; the shader inputs equal the smoothed values and the intensity is untouched |
| GlRenderer.Renderer.SetIntensity | src/renderer/gl_renderer.py:174-181 | the intensity is the value clipped to [0, 1]: kept inside, 0 below and 1 above |
| RiverLines.FilteredShape | videomapping_pygame.py:36-55 | the filtered line has one extra point per jump and keeps the first and the last point, so two input points always give at least two, and the second `< 2` guard cannot fire |
| RiverLines.FilteredPrefix | videomapping_pygame.py:37-52 | filtering a prefix of the points gives a prefix of the filtered line, so the filter works point by point in order |
| RiverLines.FilteredPlace | videomapping_pygame.py:38-52 | every input point appears in the filtered line, in order, after the number of jumps before it; right before a point that jumped sits the midpoint of the jump |
| RiverLines.FilterPoints | videomapping_pygame.py:37-52 | the loop builds the filtered line that keeps every point and adds a midpoint before each step of 50 pixels or more |
| RiverLines.GlowColor | videomapping_pygame.py:62-66 | each channel drops by 20 and stops at 0: never negative and never brighter than the colour |
| RiverLines.LineWidth | videomapping_pygame.py:58 | the drawn width is at least 1 and is the requested width whenever that is positive |
| RiverLines.DrawSmoothLine | videomapping_pygame.py:31-67 | fewer than two points draw nothing; otherwise one stroke of the filtered line in the colour, and for widths above 3 a second one in the glow colour two pixels wider |
| RiverLines.MapochoY | videomapping_pygame.py:122-123 | a water height lies in the channel 20 pixels inside its walls, and a height already there is kept |
| RiverLines.MapochoBaseInBand | videomapping_pygame.py:94-98 | each of the eight rest heights lies strictly inside that band |
| RiverLines.MapochoLine | videomapping_pygame.py:100-125 | a line has one point every 4 pixels across the screen, in order, each clamped into the channel |
| RiverLines.StepCount | videomapping_pygame.py:102 | `range(0, width, s)` has ceil(width / s) elements |
| RiverLines.MaipoY | videomapping_pygame.py:208 | an arm height is at least 50, at most 50 pixels above the bottom on a screen of 100 pixels or more, and kept when it is already in that band |
| RiverLines.MaipoX | videomapping_pygame.py:207 | a horizontal position is clamped to the screen and kept when it is on it |
| RiverLines.MaipoArm | videomapping_pygame.py:153-210 | an arm has one point every 3 pixels across the screen, each inside the screen horizontally and 50 pixels away from the top and the bottom |
| RiverLines.Switched | videomapping_pygame.py:255-262 | the result is one of the two rivers, and the other one when the effect was a river |
| RiverLines.SwitchedTwice | videomapping_pygame.py:255-262 | switching twice gives the river back |
| PygameRivers.RiosRenderer.constructor | videomapping_pygame.py:9-22 | the cursor and the previous cursor start at the centre, inactive, at time 0, on the Mapocho |
| PygameRivers.RiosRenderer.UpdateMouse | videomapping_pygame.py:24-29 | the old cursor becomes the previous one and the new position and button state are taken |
| PygameRivers.RiosRenderer.SwitchEffect | videomapping_pygame.py:255-262 | the effect becomes the other river |
| PygameRivers.SwitchedTimesParity | videomapping_pygame.py:298-299 | only the parity of the number of space presses decides the river |
| PygameRivers.VideomappingApp.constructor | videomapping_pygame.py:267-280 | a 1920 x 1080 renderer on the Mapocho, running |
| PygameRivers.VideomappingApp.HandleEvents | videomapping_pygame.py:290-302 | the program keeps running exactly when it was and no quit or escape came, and the river is switched once per space press |
| PygameRivers.VideomappingApp.Update | videomapping_pygame.py:304-310 | the renderer gets the cursor and the left button, and remembers the old cursor |
| CameraRivers.ScreenPoint | videomapping_camera.py:120-121 | in exact arithmetic, a camera pixel maps to screen x = 3 cx and to the truncation of 2.25 cy, so a pixel of the 640 x 480 image lands on the 1920 x 1080 screen (the source's double rounding is under Left out) |
| CameraRivers.MovementDetector.constructor | videomapping_camera.py:31-45 | no capture, camera inactive, not running, no movement, position at the screen centre (960, 540) |
| CameraRivers.MovementDetector.ObserveFrame | videomapping_camera.py:101-123 | movement is detected exactly when the largest contour is over 500 square pixels, and the position moves to the mapped centroid only then and only with a centroid |
| CameraRivers.MovementDetector.GetMovement | videomapping_camera.py:137-141 | the last position as a one-element list exactly while the camera is active and saw movement, otherwise the empty list |
| CameraRivers.MovementDetector.StopCamera | videomapping_camera.py:72-81 | afterwards nothing runs, the camera is inactive, the capture is released and no movement is reported |
| CameraRivers.RiosRenderer.constructor | videomapping_camera.py:158-169 | the cursor starts at the centre, inactive, on the Mapocho |
| CameraRivers.RiosRenderer.UpdateMovement | videomapping_camera.py:183-190 | a non-empty list moves the cursor to its first position and activates it; an empty one deactivates it and keeps the position |
| CameraRivers.RiosRenderer.UpdateMouse | videomapping_camera.py:192-195 | the cursor and the button state are taken as given |
| CameraRivers.RiosRenderer.SwitchEffect | videomapping_camera.py:413-420 | the effect becomes the other river |
| CameraRivers.VideomappingApp.constructor | videomapping_camera.py:425-439 | a 1920 x 1080 renderer on the Mapocho and a detector with its camera off, running |
| CameraRivers.VideomappingApp.Update | videomapping_camera.py:471-483 | with camera movement the cursor follows it and is active; otherwise the mouse position and left button are used |

## Left out

- Drawing: OpenGL, pygame and cv2 calls, every `render_*` method, `setup_opengl`, the fullscreen toggles (F11, `VIDEORESIZE`) and the debug overlays. These are foreign graphics calls with no state the model needs. The river renderers' stroke lists stand in for `pygame.draw.lines`.
- Camera capture and MediaPipe: `hands.process`, `cv2.VideoCapture`, background subtraction and contour finding. Their outputs are inputs here: the landmarks and handedness of each hand, and the largest contour's area and centroid in `CameraRivers.MovementDetector.ObserveFrame`. `src/camera/camera_handler.py` is not part of this model.
- `MovementDetector.start_camera`, its `_camera_loop` thread and `toggle_camera`: they open a device and write shared fields from a second thread. Concurrency is not modelled. `ObserveFrame` models what one loop iteration leaves in the fields.
- `CameraRivers.VideomappingApp.constructor`: its call to `start_camera` (videomapping_camera.py:442) is left out for the reason above, so the model's detector starts with the camera off. The keyboard handler of that file (`handle_events`, whose only extra key toggles the camera) is left out with it.
- PLY loading, centring and scaling (`load_ply`, `load_bact`, `load_strand`, `load_fragment`, `load_model`): file I/O through `plyfile` and NumPy. A model only records whether its file loaded and, for the DNA strands, the loaded vertices.
- Randomness: fragment positions and axes, the Gaussian vertex shake of `apply_vertex_shake`, cell sizes and phases, and the particles spawned in `render_cell_model`. They are parameters, or not modelled where only drawing reads them.
- Sines, cosines and the clock: the river wave terms, `get_hand_angle`, the animation phases and the sphere's vertex coordinates and normals. The wave terms enter the river lines as an arbitrary `displacement` function, which only the clamps then bound. The sphere model keeps vertex counts and index arithmetic, not coordinates. The time the render loops add each frame is not modelled.
- `SphereMesh` and the two `CreateDefaultGeometry` methods: the segment count is a field fixed at construction, 16 for the cell renderer and 16 for the camera scene. The source's literal constant is not written into the lemmas.
- String keys and events become enumerations (`Key`, `RiverEvent` and others). Event queues become sequences of them.
- `pcr_simple_simulation.py`'s window, OpenGL setup and main loop. `PcrSimple.Simulation` takes the window size, which must be positive because `handle_events` divides by it. It also takes the fifty random cell positions and phases that `generate_cells` draws, as seeds.
- `basteria_viewer.py`: its hand control is a sine-of-the-wall-clock demo followed by drawing. Nothing in it carries state worth modelling beyond the other viewers.
- `setup.py`, `example_usage.py`, `test_simulation.py`, `clean_project.py` and `minimize_project.py`: installer, menus, import checks and source-rewriting scripts.
- pcr_camera_simulation.py:396-397: two over-indented lines that make the file fail to parse as written. The model follows the evident logic of the surrounding functions.
- RiverLines.DrawSmoothLine: the second `len(filtered_points) < 2` guard (videomapping_pygame.py:54-55) is not written as a branch. `RiverLines.FilteredShape` proves the filter never shortens the line, so that guard cannot fire after the first one.
- PlyCellRenderer.CellRenderer.UpdateEnergyParticles: removes an expired particle by identity. In the source, `list.remove` compares particle dictionaries holding NumPy arrays; see Findings.
- BasteriaViewer.Viewer.ProcessHandTracking: follows the code, which never clears `last_right_hand_pos` on a frame without hands. The next right hand after a gap therefore rotates by its offset from the hand seen before the gap. `VariantViewer.Viewer.ProcessHandTracking` does clear both last positions, as basteria_viewer_mediapipe.py:242-244 does.
- MathUtils.MapRange: requires a non-empty source interval. For an empty one, Python raises `ZeroDivisionError`, and the model does not say so. No caller in the modelled files passes an empty interval.
- MathUtils.SmoothStep: requires distinct edges. For coinciding edges, Python raises `ZeroDivisionError`, and the model does not say so. No caller in the modelled files passes coinciding edges.
- CameraRivers.ScreenPoint: computes `cx / 640 * 1920` in exact reals. In double precision, `cx / 640` rounds, and for eight columns (41, 82, 164, 169, 323, 328, 333 and 338) the product falls just below `3 cx` and truncates to `3 cx - 1`. The model's `s.0 == 3 * cx` therefore holds only for the exact computation, and the range bound `0 <= s.0 < 1920` holds in both.
- BasteriaModels.HelicaseZ: follows the code, `-8 + 18 f`. The comment beside it in the source gives a range of [-4, 4].

## Findings

| source | as written | input that shows it | evidently intended | confidence | as-written member | corrected member |
|---|---|---|---|---|---|---|
| basteria_mediapipe.py:172-178 | `separate_strands` checks only that the first strand's original vertices exist, then shifts both strands | first strand loaded, second `None`: adding the shift to `None` raises `TypeError` | separate only when both strands loaded, the guard the constructor uses | not executed | BasteriaModels.SeparateStrandsAsWrittenRaises | BasteriaModels.SeparateStrandsCorrected |
| ply_cell_renderer.py:159-168 | `update_energy_particles` removes an expired particle with `list.remove`, which compares it with each earlier particle dictionary; two dictionaries holding NumPy arrays compare to an array whose truth value Python refuses | a surviving particle followed by one that expires, e.g. lifetimes 2.0 then 0.01 with `dt` 0.02: the call raises `ValueError` | remove exactly the expired particles and keep the survivors in order | not executed | PlyCellRenderer.UpdateParticlesAsWrittenRaises | PlyCellRenderer.CellRenderer.UpdateEnergyParticles |
