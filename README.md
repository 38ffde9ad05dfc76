# Hybrid edge + KLT pose loop (vpMbEdgeKltTracker)

This project models the bookkeeping core of ViSP's hybrid model-based tracker,
`vpMbEdgeKltTracker`. That tracker refines the pose of a rigid object by fusing two kinds of
measurement:

- moving-edge contour features: lines, cylinders and circles of a pyramid level;
- tracked KLT points, grouped in polygons and cylinders.

Both kinds feed one weighted, robust virtual visual servoing (VVS) loop.

The model is in five modules:

- `Common`: poses (16 reals), the exceptions of the core, blocks of interaction rows, sums.
- `Primitives`: the contour primitives and their row layout. It covers:
  - how many rows each primitive owns;
  - the running offset its rows sit at, in the order lines, then cylinders, then circles;
  - the reliability factor of every row: 1, 0.1 near the image border, 0.2 for an appearing
    face or a suppressed site;
  - the weight feedback of `postTrackingMbt`: sites flagged as M-estimator outliers below
    weight 0.5, mean weights, and the Reinit request below a mean of 0.8.
- `Klt`: the KLT groups. Each group that takes part adds twice its point count of rows at a
  running shift, polygons first and cylinders after. A cylinder that raises is re-raised as
  "Cannot compute interaction matrix".
- `Vvs`: one pass of the `while` loop of `computeVVS` as the function `Step` on a loop state,
  and the whole loop as `Run`. A pass follows the code's branches:
  - the Levenberg-Marquardt rejection with its rollback and its divergence check;
  - the reset of the weights on the first pass;
  - the Tukey weights of each modality with at least four rows;
  - the fusion with the shares 0.35/0.65;
  - the damping update, the snapshots and the pose update.
  
  The numerical kernels are function-valued parameters (`Numerics`). These are the interaction
  rows, the Tukey M-estimator, the weighted residue, the pseudo-inverse solve, the exponential
  map and the pose product.
- `Tracker`: the class `EdgeKltTracker`. Its methods are `InitMbtTracking`, `TrackFirstLoop`,
  `TrackSecondLoop`, `PostTrackingMbt` and `ComputeVVS`. They work as the C++ does:
  - loops with running offsets over flat buffers (`array`, `array2`);
  - one `while` loop for the VVS iteration;
  - writes to the tracker's pose, incremental pose, `m_error` and `m_w`.

  Each method is proved equal to the functions of the other modules that define it.

The properties proved are:

- the row counts and offsets of the three passes agree;
- every factor is 1, 0.2 or 0.1;
- every buffer holds exactly the rows of its primitives or groups, and nothing past them changes;
- a KLT fill fails exactly when a taking-part group raises;
- the damping stays in (0, 1];
- every pose the loop leaves is the incremental pose applied to `c0Mo`;
- all weights stay in [0, 1];
- the loop ends only on convergence, on the iteration budget, or on a raised exception;
- feedback keeps the layout of every primitive and relabels exactly the rows whose weight is
  below 0.5.

A modality with fewer than four rows keeps its 0.35 or 0.65 share, the other modality gets a
share of 1, and the deficient modality's rows are dropped from the stacked system:

- a contour count of 1 to 3 is set to 0;
- KLT rows are not filled when `nbInfos < 4`, but their `m_w` entries are still written.

The code has two defects, both under Findings. The Levenberg-Marquardt test as written compares two vectors that are always equal. The model states that test beside the corrected one, which compares the fresh
residual of the pass; `Step` and `ComputeVVS` use the corrected test. And when the contour rows are dropped,
`postTrackingMbt` reads weights past the end of the vector `track` passes it; in the model,
`PostTrackingMbt` reads weight 1 for such rows.

## Model

| member | source | states |
|---|---|---|
| Tracker.EdgeKltTracker.constructor | modules/tracker/mbt/src/hybrid/vpMbEdgeKltTracker.cpp:48-49 | gain 0.8, both M-estimator thresholds 2, iteration budget 200; the poses start as the identity and m_error, m_w empty |
| Tracker.EdgeKltTracker.InitMbtTracking | modules/tracker/mbt/src/hybrid/vpMbEdgeKltTracker.cpp:148-187 | an unused level raises the dimension error; otherwise the result is the feature count of the visible and tracked lines, cylinders and circles |
| Tracker.CountVisibleRows | modules/tracker/mbt/src/hybrid/vpMbEdgeKltTracker.cpp:159-184 | one list's loop adds the count of each visible, tracked primitive |
| Primitives.RowCountsAgree | modules/tracker/mbt/src/hybrid/vpMbEdgeKltTracker.cpp:158-184 | the visible-and-tracked count never exceeds the rows the later passes walk over (all tracked primitives), and equals them exactly when no hidden tracked primitive owns rows |
| Tracker.EdgeKltTracker.TrackFirstLoop | modules/tracker/mbt/src/hybrid/vpMbEdgeKltTracker.cpp:930-1044 | unused level: dimension error and the factor vector untouched; a count of 0 returns early with the vector untouched; otherwise the vector is exactly FactorVector of the level |
| Tracker.LevelFactors | modules/tracker/mbt/src/hybrid/vpMbEdgeKltTracker.cpp:948-1041 | the buffer of nbrow entries set to 1, then overwritten in one walk, equals FactorVector of lines ++ cylinders ++ circles |
| Tracker.WriteListFactors | modules/tracker/mbt/src/hybrid/vpMbEdgeKltTracker.cpp:951-1041 | after the walk over a list the offset is the list's tracked row count, and every written entry is the factor vector's entry |
| Tracker.WriteNextFactors | modules/tracker/mbt/src/hybrid/vpMbEdgeKltTracker.cpp:953-954 | an untracked primitive writes nothing; a tracked one appends its row factors and advances the offset by its count |
| Tracker.WritePrimFactors | modules/tracker/mbt/src/hybrid/vpMbEdgeKltTracker.cpp:952-1040 | a tracked primitive's rows at offset n get its row factors, and nothing before n changes |
| Tracker.LineBaseFactor | modules/tracker/mbt/src/hybrid/vpMbEdgeKltTracker.cpp:957-968 | the face walk returns BaseFactor: 0.2 at an appearing face, else 0.1 near the border, stopping at the first face that decides; 1 when none decides |
| Primitives.BaseFactorClosedForm | modules/tracker/mbt/src/hybrid/vpMbEdgeKltTracker.cpp:957-968 | closed form of the walk: near the border only the first face decides (0.2 or 0.1); otherwise any appearing face gives 0.2, and none gives 1 |
| Tracker.WriteLineFactors | modules/tracker/mbt/src/hybrid/vpMbEdgeKltTracker.cpp:970-986 | a line's rows, list after list (missing lists skipped), get the base factor, or 0.2 where the site is suppressed; entries before the line are unchanged |
| Tracker.WriteSegmentFactors | modules/tracker/mbt/src/hybrid/vpMbEdgeKltTracker.cpp:971-985 | one moving-edge list writes exactly its nbFeature[a] rows after the rows done so far when it exists, and nothing when it is missing |
| Tracker.WriteSiteFactors | modules/tracker/mbt/src/hybrid/vpMbEdgeKltTracker.cpp:977-983 | each of the count rows at n gets SiteFactor(base, site); every other entry is unchanged |
| Tracker.WriteContourFactors | modules/tracker/mbt/src/hybrid/vpMbEdgeKltTracker.cpp:990-1040 | a cylinder's rows come from meline1 then meline2, a circle's from its ellipse; each gets 1, or 0.2 at a suppressed site |
| Primitives.CylinderRowStates | modules/tracker/mbt/src/hybrid/vpMbEdgeKltTracker.cpp:1003-1013 | cylinder row i reads meline1 while i < nbFeaturel1 and meline2 at i - nbFeaturel1 after |
| Primitives.FactorAt | modules/tracker/mbt/src/hybrid/vpMbEdgeKltTracker.cpp:978-1035 | row i of tracked primitive k sits at Offset(k) + i of the factor vector, with 0.2 for a suppressed site and the base factor otherwise |
| Primitives.FactorVectorRange | modules/tracker/mbt/src/hybrid/vpMbEdgeKltTracker.cpp:957-1035 | every entry of the factor vector is 1, 0.2 or 0.1 |
| Primitives.FactorVectorLevel | modules/tracker/mbt/src/hybrid/vpMbEdgeKltTracker.cpp:951-1041 | the level's factor vector is the lines' vector, then the cylinders', then the circles' |
| Tracker.EdgeKltTracker.TrackSecondLoop | modules/tracker/mbt/src/hybrid/vpMbEdgeKltTracker.cpp:1046-1096 | the first TrackedRows entries of error and L are exactly the stacked rows of the level's tracked primitives at the given pose; the rest of the buffers is unchanged |
| Tracker.CopyLevelRows | modules/tracker/mbt/src/hybrid/vpMbEdgeKltTracker.cpp:1054-1095 | lines, cylinders and circles copied in one walk with one running offset |
| Tracker.CopyListRows | modules/tracker/mbt/src/hybrid/vpMbEdgeKltTracker.cpp:1055-1067 | one list: n advances by the tracked rows; the rows in [n0, n) are ErrorRows/LRows of the list; all others unchanged |
| Tracker.CopyBlock | modules/tracker/mbt/src/hybrid/vpMbEdgeKltTracker.cpp:1059-1064 | the i/j double loop puts row i, column j of the block at L[n+i][j] and error[n+i], and changes nothing else |
| Primitives.ErrorRowsAt | modules/tracker/mbt/src/hybrid/vpMbEdgeKltTracker.cpp:1059-1065 | row i of tracked primitive k lands at stacked row Offset(k) + i, in both the error and the interaction rows |
| Primitives.LevelRows | modules/tracker/mbt/src/hybrid/vpMbEdgeKltTracker.cpp:1054-1095 | a level's rows and count are those of its lines, then cylinders, then circles |
| Tracker.FillKltStack | modules/tracker/mbt/src/hybrid/vpMbEdgeKltTracker.cpp:656-688 | the KLT buffers read back as KltStack: polygons' rows from shift 0, then cylinders'; or the first group's error |
| Tracker.FillKltRows | modules/tracker/mbt/src/hybrid/vpMbEdgeKltTracker.cpp:660-669 | one list of groups fails exactly when KltFill fails, with its error; otherwise the shift advances by KltRows and the rows [shift0, shift) are the fill's; rows below shift0 are kept |
| Klt.KltFill | modules/tracker/mbt/src/hybrid/vpMbEdgeKltTracker.cpp:660-687 | a successful fill holds KltRows rows of 6 columns |
| Klt.KltFillFails | modules/tracker/mbt/src/hybrid/vpMbEdgeKltTracker.cpp:672-687 | the fill fails iff some taking-part group raises; a polygon's error propagates, a cylinder's becomes InteractionMatrixFailed |
| Klt.KltFillAt | modules/tracker/mbt/src/hybrid/vpMbEdgeKltTracker.cpp:663-667 | row i of taking-part group k lands at shift KltRows(groups before k) + i |
| Klt.KltStack | modules/tracker/mbt/src/hybrid/vpMbEdgeKltTracker.cpp:656-688 | a successful stack holds the polygons' plus the cylinders' rows |
| Tracker.EdgeKltTracker.ComputeVVS | modules/tracker/mbt/src/hybrid/vpMbEdgeKltTracker.cpp:583-875 | unused level, or fewer than 4 rows in both modalities: that exception, and no field changes; otherwise cMo, ctTc0, m_error, m_w, w_mbt and w_klt end as Run leaves them from the start state, with 1 to 3 contour rows dropped to 0 |
| Tracker.EdgeKltTracker.VvsFromStart | modules/tracker/mbt/src/hybrid/vpMbEdgeKltTracker.cpp:595-647 | the loop starts at residu 0, residu_1 -1, iter 0, mu 0.01, identity pose snapshots and zero m_error_prev, m_w_prev; the fields get the final state of Run |
| Tracker.EdgeKltTracker.VvsLoop | modules/tracker/mbt/src/hybrid/vpMbEdgeKltTracker.cpp:626-861 | the while loop, shares included, ends in exactly Run's final state and exception |
| Tracker.EdgeKltTracker.VvsPass | modules/tracker/mbt/src/hybrid/vpMbEdgeKltTracker.cpp:650-861 | one pass yields exactly Step |
| Tracker.EdgeKltTracker.StepFill | modules/tracker/mbt/src/hybrid/vpMbEdgeKltTracker.cpp:653-688 | the pass's rows equal Fill: contour rows only with at least 4 of them, KLT rows only with nbInfos >= 4 |
| Vvs.Fill | modules/tracker/mbt/src/hybrid/vpMbEdgeKltTracker.cpp:653-688 | the contour block has nbrow rows and the KLT block 2 * nbInfos (none below 4); with nbInfos < 4 the fill cannot fail |
| Tracker.DecidePass | modules/tracker/mbt/src/hybrid/vpMbEdgeKltTracker.cpp:690-706 | the LM test on the fresh rows: a worse mean square than the snapshot's goes to the rejection, otherwise the pass is accepted; the result is Decide |
| Tracker.RejectPass | modules/tracker/mbt/src/hybrid/vpMbEdgeKltTracker.cpp:692-703 | mu times 10; Diverged when it passes 1, otherwise pose, m_error, m_w and ctTc0 restored from their snapshots |
| Tracker.DecideRejected | modules/tracker/mbt/src/hybrid/vpMbEdgeKltTracker.cpp:693-702 | a rejected pass is Stop(Diverged) when ten times mu exceeds 1 and otherwise the rollback with mu times 10 |
| Tracker.AcceptPass | modules/tracker/mbt/src/hybrid/vpMbEdgeKltTracker.cpp:706-855 | the accepted pass equals Accept: weights reset on pass 0, Tukey per modality above 3 rows, fusion, residue, solve, mu/10 after pass 0 under LM, error and weight snapshots under LM, pose snapshots, ctTc0 and cMo updated |
| Vvs.Accept | modules/tracker/mbt/src/hybrid/vpMbEdgeKltTracker.cpp:706-857 | an accepted pass advances iter by one and leaves w_mbt, w_klt long enough for the next fusion |
| Vvs.Decide | modules/tracker/mbt/src/hybrid/vpMbEdgeKltTracker.cpp:690-857 | a pass that goes on advances iter by one and keeps the weight lengths |
| Vvs.Step | modules/tracker/mbt/src/hybrid/vpMbEdgeKltTracker.cpp:649-861 | a completed pass advances iter by one and keeps the weight lengths (corrected LM test) |
| Vvs.Shares | modules/tracker/mbt/src/hybrid/vpMbEdgeKltTracker.cpp:626-638 | both shares in [0, 1]; they sum to 1 when both modalities have 4 rows; below 4 rows the other modality's share is 1 |
| Vvs.FuseWeights | modules/tracker/mbt/src/hybrid/vpMbEdgeKltTracker.cpp:754-762 | m_w[i] = w_mbt[i] * factor[i] * factorMBT for contour rows, w_klt[i - nbrow] * factorKLT for the rest, nbrow + 2 * nbInfos entries |
| Vvs.FusedInUnit | modules/tracker/mbt/src/hybrid/vpMbEdgeKltTracker.cpp:754-762 | with M-estimator weights, factors and shares in [0, 1], every fused weight is in [0, 1] |
| Vvs.Start | modules/tracker/mbt/src/hybrid/vpMbEdgeKltTracker.cpp:595-649 | the start state has iter 0 and residu - residu_1 = 1, so the first pass always runs when maxIter > 0 |
| Vvs.ConvergedIff | modules/tracker/mbt/src/hybrid/vpMbEdgeKltTracker.cpp:649 | the truncated test `(int)((residu - residu_1) * 1e8) == 0` holds exactly when the residue moved by less than 1e-8 either way |
| Vvs.RunExits | modules/tracker/mbt/src/hybrid/vpMbEdgeKltTracker.cpp:649-861 | normal exit only when the residue has settled or maxIter passes are done; an exception only from a pass that raises it; never more than maxIter passes |
| Vvs.RunMuInRange | modules/tracker/mbt/src/hybrid/vpMbEdgeKltTracker.cpp:693-696 | from mu in (0, 1] the damping stays in (0, 1]: rejections multiply by 10 and stop before passing 1; accepted passes divide by 10 |
| Vvs.StepComposed | modules/tracker/mbt/src/hybrid/vpMbEdgeKltTracker.cpp:851-854 | a pass keeps cMo = ctTc0 * c0Mo, and the same for the snapshots cMoPrev, ctTc0_Prev |
| Vvs.RunComposed | modules/tracker/mbt/src/hybrid/vpMbEdgeKltTracker.cpp:698-701 | every pose the loop leaves, accepted or rolled back, is the incremental pose applied to c0Mo |
| Vvs.AcceptWeightsInUnit | modules/tracker/mbt/src/hybrid/vpMbEdgeKltTracker.cpp:707-762 | an accepted pass leaves w_mbt, w_klt and m_w in [0, 1] (and m_w_prev under LM) |
| Vvs.StepWeightsInUnit | modules/tracker/mbt/src/hybrid/vpMbEdgeKltTracker.cpp:698-762 | a pass, accepted or rolled back, keeps all weights in [0, 1] |
| Vvs.RunWeightsInUnit | modules/tracker/mbt/src/hybrid/vpMbEdgeKltTracker.cpp:649-861 | every weight the loop leaves in m_w, w_mbt and w_klt is in [0, 1] |
| Vvs.AsWrittenNeverRejects | modules/tracker/mbt/src/hybrid/vpMbEdgeKltTracker.cpp:690-704 | with the test as written, every pass whose rows are computed is accepted, m_error = m_error_prev is kept, and Diverged is never raised |
| Vvs.IntendedRejectsWorse | modules/tracker/mbt/src/hybrid/vpMbEdgeKltTracker.cpp:690-706 | with the corrected test, an LM pass after the first is damped and rolled back, or raises Diverged, exactly when its fresh rows are worse in mean square than the snapshot; otherwise it is accepted |
| Vvs.StepKeepsSnapshotsAgree | modules/tracker/mbt/src/hybrid/vpMbEdgeKltTracker.cpp:764-809 | the corrected pass also keeps m_error = m_error_prev, so the two tests differ only in what they compare |
| Vvs.AsWrittenAcceptsWorsePass | modules/tracker/mbt/src/hybrid/vpMbEdgeKltTracker.cpp:692 | an LM state of the shape every second pass has (iter 1, mu 0.01, m_error = m_error_prev) whose fresh error doubles the previous one is accepted by the written test and rejected by the intended one |
| Vvs.FirstPassShape | modules/tracker/mbt/src/hybrid/vpMbEdgeKltTracker.cpp:690-808 | the first pass is never rejected, so a run that gets past it starts its second pass with iter 1, mu still 0.01 and, under LM, m_error = m_error_prev, with either test |
| Tracker.EdgeKltTracker.PostTrackingMbt | modules/tracker/mbt/src/hybrid/vpMbEdgeKltTracker.cpp:421-571 | unused level: dimension error, nothing changes; otherwise exactly that level is replaced by FeedbackLevel of the weights, rows past the end of w reading weight 1, and the tracker stays valid |
| Primitives.PadWeights | modules/tracker/mbt/src/hybrid/vpMbEdgeKltTracker.cpp:441-443 | the weights read are w itself when it covers the tracked rows, and otherwise w followed by ones up to the row count |
| Tracker.EdgeKltTracker.DroppedContourRowsLeaveShortWeights | modules/tracker/mbt/src/hybrid/vpMbEdgeKltTracker.cpp:586-727 | with 1 to 3 contour rows and at least 4 KLT rows, the loop started from the empty w_mbt of track (lines 905-906) passes the entry checks and, however it ends, hands back an empty w_mbt, while the level has tracked rows whose weights postTrackingMbt reads (lines 357 and 441) once the loop ends without an exception |
| Vvs.StepKeepsDroppedContourWeights | modules/tracker/mbt/src/hybrid/vpMbEdgeKltTracker.cpp:705-731 | with the contour rows dropped, no pass, accepted or rolled back, writes w_mbt |
| Vvs.RunKeepsDroppedContourWeights | modules/tracker/mbt/src/hybrid/vpMbEdgeKltTracker.cpp:649-857 | with the contour rows dropped, the loop ends with the w_mbt it started with |
| Primitives.FeedbackUnitWeights | modules/tracker/mbt/src/hybrid/vpMbEdgeKltTracker.cpp:429-566 | weights of 1 flag no site of a primitive and set no Reinit request |
| Primitives.FeedbackListUnitWeights | modules/tracker/mbt/src/hybrid/vpMbEdgeKltTracker.cpp:427-570 | weights of 1 leave every site state and Reinit flag of a list as they were |
| Primitives.FeedbackLevelUnitWeights | modules/tracker/mbt/src/hybrid/vpMbEdgeKltTracker.cpp:421-571 | weights of 1, the padding of an empty w, leave every site state and Reinit flag of the level's lines, cylinders and circles as they were |
| Tracker.FeedbackLevelPass | modules/tracker/mbt/src/hybrid/vpMbEdgeKltTracker.cpp:427-570 | lines, cylinders and circles fed back in one walk with one running offset |
| Tracker.FeedbackPass | modules/tracker/mbt/src/hybrid/vpMbEdgeKltTracker.cpp:429-465 | one list fed back from row n0: n advances by its tracked rows and each primitive gets FeedbackList's result |
| Tracker.FeedbackPrim | modules/tracker/mbt/src/hybrid/vpMbEdgeKltTracker.cpp:430-566 | one tracked primitive's sites, mean weights and Reinit flag become Feedback of its weights |
| Tracker.FlagLine | modules/tracker/mbt/src/hybrid/vpMbEdgeKltTracker.cpp:435-451 | a line's lists are flagged list after list from consecutive weights, and the weights summed |
| Tracker.FlagNextSegment | modules/tracker/mbt/src/hybrid/vpMbEdgeKltTracker.cpp:437-450 | list a is flagged by the nbFeature[a] weights after those of the lists before it, and they are added to the sum |
| Tracker.FlagAndSum | modules/tracker/mbt/src/hybrid/vpMbEdgeKltTracker.cpp:481-491 | each site with weight below 0.5 becomes MEstimator, the others keep their state, and the total is the sum of the weights |
| Tracker.MeanOf | modules/tracker/mbt/src/hybrid/vpMbEdgeKltTracker.cpp:493-496 | the mean is the total over the count, and 1 when there is no row |
| Primitives.FlagSegmentsAt | modules/tracker/mbt/src/hybrid/vpMbEdgeKltTracker.cpp:435-451 | list a of a line is flagged with the slice of weights starting where the earlier lists' rows end |
| Primitives.SegStatesFlag | modules/tracker/mbt/src/hybrid/vpMbEdgeKltTracker.cpp:440-450 | flagging a line's lists relabels its rows exactly by their own weights |
| Primitives.FeedbackEffect | modules/tracker/mbt/src/hybrid/vpMbEdgeKltTracker.cpp:429-566 | feedback keeps the layout; a row's site becomes MEstimator iff its weight < 0.5; means are of the primitive's own rows (each half for a cylinder); Reinit becomes set iff a mean < 0.8 and is never cleared |
| Primitives.FeedbackListAt | modules/tracker/mbt/src/hybrid/vpMbEdgeKltTracker.cpp:427-570 | tracked primitive k reads exactly the weights at its own offset; untracked primitives are left alone |
| Primitives.FeedbackListLayout | modules/tracker/mbt/src/hybrid/vpMbEdgeKltTracker.cpp:427-570 | feedback keeps every primitive's flags and counts, so the next frame's row counts equal this frame's |
| Primitives.FeedbackLevelLayout | modules/tracker/mbt/src/hybrid/vpMbEdgeKltTracker.cpp:421-571 | feedback on a level keeps its well-formedness, the layout of each list and both row counts |

## Left out

- Image processing is not modelled: the moving-edge and KLT trackers themselves, the image
  pyramid, display and the XML configuration. Their outputs are the datatypes' fields (site
  states, feature counts, visibility, point counts).
- The numerical kernels are parameters of the model, not definitions. These are
  `computeInteractionMatrixError`, `computeInteractionMatrixAndResidu`, `computeHomography`,
  Tukey, the pseudo-inverse, `computeJTR`, the velocity twist, the exponential map and the pose
  product. Their relations to the rows are requirements (`NumericsFit`).
- The weighted residue `sqrt(num / den)` of lines 774-791 and the row weighting of `R` and `L`
  in place are inside the `residue` and `solve` parameters.
- Floating point is modelled as `real`, and the `(int)` cast of line 649 as truncation toward
  zero with no overflow.
- The covariance computation (lines 863-874) and its copies `L_true`, `LVJ_true`, `w_true` are
  not modelled, because they only feed the covariance output.
- The diagnostics `residuMBT` and `residuKLT` (lines 728-744) are not modelled, because nothing
  reads them.
- `compute_interaction` is taken as always true, its default value.
- The constructor's `setMaxIter(30)` for the KLT-only solve, the angles and the Ogre window name
  are not part of the pose loop.
- `init`, `setPose`, `resetTracker`, the `track` wrapper and the other setters are not part of
  the core. Of `track`, only the empty `w_mbt` it passes to `computeVVS` and then to
  `postTrackingMbt` (lines 905-908) is modelled, in Tracker.EdgeKltTracker.DroppedContourRowsLeaveShortWeights.
- Allocation and freeing of the per-pass `L` and `R` are not modelled. The stacked rows are
  values, and the fills write into buffers allocated once per loop.
- Tracker.EdgeKltTracker.VvsLoop keeps the pose, the incremental pose, `m_error` and `m_w` in the
  loop state rather than in the fields during the loop. They are written back once the loop is
  left. A reader of the object during the loop is therefore not modelled; the loop is single-threaded.
- Tracker.EdgeKltTracker.TrackFirstLoop requires that a tracked but hidden primitive owns no
  rows. The C++ sizes the factor vector by the visible count and then writes the rows of every
  tracked primitive, so without this it writes out of bounds.
- Tracker.EdgeKltTracker.ComputeVVS requires `nbInfos` to match the KLT groups' rows. The caller
  computes it from the same groups; that caller is not part of this model.
- Tracker.EdgeKltTracker.PostTrackingMbt is proved against the whole-level function
  `FeedbackLevel`. The in-place update of individual `vpMeSite` list nodes is modelled as
  rebuilding the site sequences.
- Primitives.WellFormed is assumed of every primitive (`Valid()` and the constructor require it),
  not proved. It stands for guarantees of the line, cylinder and circle classes, which are not
  part of this model. A line's `nbFeatureTotal` is the sum of its `nbFeature[a]`, and a missing
  `meline[a]` has `nbFeature[a] == 0`. A cylinder's `nbFeature` is `nbFeaturel1 + nbFeaturel2`.
  No count exceeds its site list. The offsets of `trackFirstLoop` (line 984 advances only inside
  `if (meline[a] != NULL)`), `trackSecondLoop` (line 1065) and `postTrackingMbt` (line 453, by
  `nbFeatureTotal`) agree only under these guarantees.
- Tracker.EdgeKltTracker.PostTrackingMbt departs from the code when `w` is shorter than the
  level's tracked rows. This happens on the `track` path when 1 to 3 contour rows are dropped,
  and when hidden tracked rows own rows. The C++ then reads past the end of `w` (line 441); the
  model reads weight 1 for those rows (see Findings).
- Tracker.EdgeKltTracker.ComputeVVS uses the corrected Levenberg-Marquardt test; the test as
  written is `Vvs.StepWith(.., AsWritten)` (see Findings).

## Findings

| source | as written | input that shows it | evidently intended | confidence | as-written member | corrected member |
|---|---|---|---|---|---|---|
| modules/tracker/mbt/src/hybrid/vpMbEdgeKltTracker.cpp:692 | the LM test compares `m_error` with `m_error_prev`; `m_error` is only refreshed at line 764 of an accepted pass, and lines 808 and 837 then copy it into `m_error_prev`, so the two are always equal and no pass is ever rejected | LM mode, second pass (iter 1), `m_error = m_error_prev = [1, 0, 0, 0]`, and a fresh stacked residual `[2, 0, 0, 0]` whose mean square is four times worse: the written test accepts it | compare the fresh stacked residual of this pass with `m_error_prev`, so a worse step is rejected, rolled back and damped | high; not executed | Vvs.AsWrittenAcceptsWorsePass | Vvs.IntendedRejectsWorse |
| modules/tracker/mbt/src/hybrid/vpMbEdgeKltTracker.cpp:441 | `postTrackingMbt` reads `w[n+indexLine]` for every tracked row of the level. `track` passes an empty `w_mbt` (lines 905-906), and with 1 to 3 contour rows `computeVVS` sets nbrow to 0 (lines 592-593), so it never resizes `w_mbt` (711-715) or runs Tukey on it (727). The vector stays empty however the loop ends, and when it ends without an exception line 357 hands it on | a used level with 1 to 3 visible tracked contour rows and at least 4 KLT rows: `w_mbt` is empty while the first read is `w[0]` | read only the weights the solve produced; a contour row left out of the solve counts as weight 1, the value every weight has before the M-estimator runs (lines 709-713), so its site is not flagged and no reinit is requested | medium; not executed | Tracker.EdgeKltTracker.DroppedContourRowsLeaveShortWeights | Tracker.EdgeKltTracker.PostTrackingMbt |
