# AIS intensity-profile analysis: a Dafny model

This project models the computational core of `AIS_Analysis.py`. That Fiji/Jython script measures the axon initial segment (AIS) of neurons. It takes the skeleton of the segment and a straightened strip of image along it, and turns them into an intensity profile. The model covers the computation of the profile, from the skeleton to the trimmed series:

- **Pruning.** Short branches that end in a skeleton end-point are erased from a copy of the skeleton image.
- **Path selection.** The longest of the skeletonizer's shortest paths becomes the centerline. It is oriented by the nearest nucleus (`find_closest_roi`).
- **Markers.** `local_angles` places two marker points perpendicular to the centerline at every point.
- **Aggregation.** `cross_section_intensity` reduces each column of the straightened strip to one value by mean, median or sum.
- **Profile.** `create_plot` assembles the profile. It pairs each column with its distance, cuts the trailing zeros, smooths with a rolling average (`rolling_seq`, `rolling_average`), and trims the smoothed series to the window that reaches a fraction of its peak (`get_thresholded_idx`).

Everything is a pure function over exact reals, integers and sequences. The library calls the script makes become inputs:

- the skeleton graphs, their end-points and the shortest paths;
- the nucleus centroids;
- the pixel rows of the straightened strip;
- the pixel width.

Python exceptions the script can raise on these inputs are modelled as `Err(...)` values of `Wrappers.Result`:

- an empty longest path;
- an empty nucleus list;
- an empty column under mean or median;
- a rolling window of 0.

Modules, one per file:

- `Wrappers`: `Option`, `Result` and the faults.
- `Seqs`: `sum`, `max`, `list.sort` and `[::-1]`.
- `Geometry`: points and `int()` truncation.
- `Pruning`, `Landmarks`, `PathSelection`, `Markers`, `Aggregation`, `Smoothing`, `Threshold`, `Profile`.
- `Examples`: worked cases.

Four behaviours of the script are easy to misread, and the model keeps them as written:

- **Trailing-zero cut.** The cut before smoothing keeps `range(lastindex)`, so besides the trailing zeros it also drops the last non-zero sample (`Profile.Cut`).
- **All-zero input to the threshold search.** For an all-zero series the threshold value is 0, every sample reaches it, and the window is the whole series rather than "not found" (`Threshold.AllZeroSeries`).
- **Empty nucleus list.** `find_closest_roi` returns `None` when there are no nuclei, and `create_skeleton` then fails to unpack it (`Landmarks.FindClosest`, `PathSelection.SelectPath`).
- **Search sentinel.** The closest-nucleus search starts from `sys.float_info.max`, so a point farther than that from every nucleus gets the last nucleus in the list (index −1) together with the sentinel distance.

## Model

| member | source | states |
|---|---|---|
| Pruning.ClearSlabs | AIS_Analysis.py:151-152 | Every slab point inside the image becomes 0. Every other voxel keeps its value, and the set of image coordinates is unchanged. |
| Pruning.PruneEdge | AIS_Analysis.py:138-152 | A branch erases exactly the voxels it covers, and only when it is a short end branch: its slab points, plus each vertex first point that is an end-point. Nothing else changes. |
| Pruning.PruneGraph | AIS_Analysis.py:136-152 | After the loop over one graph's edges, every voxel covered by a short end branch of that graph becomes 0, and every other voxel keeps its value. |
| Pruning.Prune | AIS_Analysis.py:134-152 | After the loop over all graphs, the image keeps its coordinates. Every voxel covered by a short end branch of some graph becomes 0, and every other voxel keeps its value. No value ever increases. |
| Pruning.PruneIdempotent | AIS_Analysis.py:134-152 | Pruning the pruned image again with the same graphs changes nothing. |
| Pruning.PruneKeepsWithoutShortEndBranches | AIS_Analysis.py:145-146 | When no branch is both shorter than the minimum and attached to an end-point, the image is unchanged. |
| Pruning.PruneClearsShortEndBranch | AIS_Analysis.py:145-152 | Every short end branch ends with all its slab points at 0, and with every vertex of it that is an end-point at 0. |
| Landmarks.Scan | AIS_Analysis.py:104-113 | The scan keeps, for the landmarks seen so far, either index −1 with the sentinel (none closer than the sentinel) or the first strictly nearest landmark and its distance. |
| Landmarks.FindClosest | AIS_Analysis.py:99-114 | An empty list gives `None`. Otherwise, when some landmark beats the sentinel, the result is the lowest-index landmark of minimal distance with its squared distance. When none does, the result is the last landmark with the sentinel. |
| Landmarks.FindClosestIsMinimal | AIS_Analysis.py:104-114 | The reported squared distance is never above any landmark's squared distance. |
| PathSelection.LongestIndex | AIS_Analysis.py:165-166 | The chosen path has the greatest point count, and every path before it is strictly shorter: the first longest one. |
| PathSelection.SelectPath | AIS_Analysis.py:155-177 | No path, an empty longest path, or no nuclei give their respective faults. Otherwise the centerline has the longest path's points with their multiplicities and length, and the nucleus index is within the list. |
| PathSelection.SelectPathOrientation | AIS_Analysis.py:170-177 | The centerline is reversed and takes the nucleus of its last point exactly when the two end-points have different nearest nuclei and the last is strictly closer. Otherwise it keeps its direction and the nucleus of its first point. |
| PathSelection.NucleusNearestToStart | AIS_Analysis.py:170-177 | In both branches the associated nucleus is the one nearest to the first point of the oriented centerline. |
| Seqs.ReversePermutes | AIS_Analysis.py:174 | Reversing the centerline keeps every point with its multiplicity. |
| Seqs.ReverseReverse | AIS_Analysis.py:174 | Reversing twice gives back the original path. |
| Markers.WindowBounds | AIS_Analysis.py:86-87 | The window ends lie inside the path around point i, at most `2*scope` apart. Each end is exactly `scope` away from i unless it is clamped at an end of the path. |
| Markers.LocalOrthogonals | AIS_Analysis.py:74-96 | One marker pair per centerline point, the i-th built from the clamped window ends of point i. |
| Markers.MarkersArePerpendicular | AIS_Analysis.py:88-91 | Before truncation, the two markers are symmetric about the midpoint of the window ends. Each is perpendicular to its own window end about that midpoint and lies at the same distance from the midpoint as that end. |
| Markers.ScopeZeroMarksThePoint | AIS_Analysis.py:86-91 | With scope 0, both markers are the point itself, moved to slice 0. |
| Geometry.Trunc | AIS_Analysis.py:90-91 | `int()` rounds toward zero: it gives the greatest integer not above a non-negative value, and the least integer not below a negative one. |
| Geometry.TruncOfInt | AIS_Analysis.py:90-91 | Truncation leaves whole numbers unchanged. |
| Aggregation.Lower | AIS_Analysis.py:276 | Lower-casing keeps the length and maps every character through the ASCII lower-case map. |
| Aggregation.ParseMethod | AIS_Analysis.py:276-283 | The method is median iff the lower-cased name is "median", sum iff it is "sum", and mean for every other name. |
| Aggregation.ParseMethodIgnoresCase | AIS_Analysis.py:276 | Names that differ only in letter case select the same method. |
| Aggregation.Column | AIS_Analysis.py:273-278 | The column holds one value per row: the row's pixel at that column. |
| Seqs.Sort | AIS_Analysis.py:258 | The sorted list is ascending and holds the same values with the same multiplicities. |
| Seqs.SortedUnique | AIS_Analysis.py:258 | Any two ascending arrangements of the same values are equal, so the median does not depend on the sorting algorithm. |
| Aggregation.MedianOf | AIS_Analysis.py:257-265 | A median exists iff the list is non-empty. It lies between the least and the greatest value, and is one of the values for an odd count. |
| Aggregation.MedianIgnoresOrder | AIS_Analysis.py:257-265 | The median depends only on the multiset of values. |
| Aggregation.MedianOfSorted | AIS_Analysis.py:257-265 | For any ascending arrangement of the values, the median is the middle element (odd count) or the mean of the two middle elements (even count). |
| Aggregation.Aggregate | AIS_Analysis.py:277-283 | The aggregate of a column fails exactly when the column is empty and the method is not sum. |
| Aggregation.UniformColumn | AIS_Analysis.py:277-283 | A uniform column of value c aggregates to c by mean and by median, and to height times c by sum. |
| Aggregation.CrossSectionIntensity | AIS_Analysis.py:268-283 | The result fails exactly when the strip has columns, no rows, and a method other than sum. Otherwise it has one value per column, each that column's aggregate. |
| Aggregation.CrossSectionSumMean | AIS_Analysis.py:279-283 | By sum, a column's value is the column total. By mean, it is the column total divided by the height. |
| Aggregation.CrossSectionMedian | AIS_Analysis.py:277-278 | By median, a column's value is the middle of its sorted values, or the mean of the two middle ones for an even height. |
| Seqs.Max | AIS_Analysis.py:290-291 | The maximum is one of the values and no value exceeds it. |
| Smoothing.RollingSeqWindows | AIS_Analysis.py:232-241 | For a window w ≥ 1 the generator yields `max(0, n − w + 1)` windows in order, the k-th holding elements k to k + w − 1. |
| Smoothing.RollingSeqZero | AIS_Analysis.py:232-241 | A window of 0 yields the empty tuple first, then every element on its own. |
| Smoothing.MeanOfEach | AIS_Analysis.py:247-253 | One mean per window, each the window's sum over its length. It fails exactly when some window is empty. |
| Smoothing.Smooth | AIS_Analysis.py:244-253 | Smoothing fails exactly for window 0. Otherwise the series has `max(0, n − w + 1)` values, the k-th the mean of inputs k..k + w − 1. |
| Smoothing.RollingAverage | AIS_Analysis.py:244-254 | Both series are smoothed with the same window; equal-length inputs give equal-length outputs. Window 0 fails. |
| Smoothing.SmoothWindowOne | AIS_Analysis.py:244-254 | A window of 1 leaves a series unchanged. |
| Smoothing.WindowOneIsIdentity | AIS_Analysis.py:244-254 | A window of 1 leaves both the distance and the intensity series unchanged. |
| Threshold.FirstFrom | AIS_Analysis.py:293-296 | The forward scan finds the least index whose value reaches the threshold, and −1 iff there is none. |
| Threshold.LastBefore | AIS_Analysis.py:297-300 | The backward scan finds the greatest index whose value reaches the threshold, and −1 iff there is none. |
| Threshold.ThresholdedIdx | AIS_Analysis.py:286-302 | The threshold value is the fraction of the peak, with −1 as the peak of an empty series. Both indices are −1 together, exactly when no value reaches the threshold. Otherwise first ≤ last, both ends reach the threshold, and every value before first or after last is below it. |
| Threshold.GetThresholdedIdx | AIS_Analysis.py:286-302 | The two `break` loops as written compute the same triple as `ThresholdedIdx`. |
| Threshold.ScanForward | AIS_Analysis.py:293-296 | The forward `break` loop returns the forward scan's index. |
| Threshold.ScanBackward | AIS_Analysis.py:297-300 | The backward `break` loop returns the backward scan's index. |
| Threshold.EmptySeries | AIS_Analysis.py:287-292 | An empty series gives (−1, −1, −threshold). |
| Threshold.WindowFound | AIS_Analysis.py:289-300 | A non-empty series with a non-negative peak and a fraction in [0, 1] always has a window. |
| Threshold.AllZeroSeries | AIS_Analysis.py:289-300 | An all-zero series gives the whole series, (0, n − 1, 0), for any fraction. |
| Profile.Distances | AIS_Analysis.py:312 | One distance per column, column i at i times the pixel width. |
| Profile.DistancesIncrease | AIS_Analysis.py:312 | With a positive pixel width, the distances increase strictly. |
| Profile.LastNonZero | AIS_Analysis.py:314-320 | The result is the index of the last non-zero sample, and −1 when every sample is zero. |
| Profile.TrailingScan | AIS_Analysis.py:314-320 | The backward loop as written ends with `lastindex` at the last non-zero sample, or at −1 for an all-zero series. |
| Profile.Cut | AIS_Analysis.py:314-322 | The kept prefix stops just before the last non-zero sample: that sample and the zeros after it are dropped. An all-zero or empty series keeps nothing. |
| Profile.SmoothKept | AIS_Analysis.py:321-323 | The smoothed series have `max(0, cut − w + 1)` points. The k-th is the mean of kept distances and kept intensities k..k + w − 1. Window 0 fails. |
| Profile.SmoothedDistances | AIS_Analysis.py:312-323 | Each smoothed distance is the distance of its window's centre, (k + (w − 1)/2) times the pixel width. |
| Profile.Trim | AIS_Analysis.py:325-329 | The trimmed series exists iff some smoothed value reaches the threshold intensity. It is the smoothed series over the closed window from the first to the last such value, and every value outside that window is below the threshold intensity. |
| Profile.Assemble | AIS_Analysis.py:312-329 | The raw series pairs each column with its distance. The smoothed series is the rolling average of the kept prefix. The threshold intensity is that of the smoothed series. A trimmed series exists iff the threshold is reached, and covers the closed window of the thresholded indices. Window 0 fails. |
| Profile.CreatePlot | AIS_Analysis.py:305-329 | A failing column aggregate fails first, then a window of 0. Otherwise the raw series has one distance and one intensity per strip column, the intensities being the cross-section values, and the whole result, smoothed series, threshold intensity and trimmed series included, is `Assemble` of those intensities. |
| Examples.RollingAverageOfFive | AIS_Analysis.py:244-254 | A window of 2 over 1..5 gives 1.5, 2.5, 3.5, 4.5. |
| Examples.MedianExamples | AIS_Analysis.py:257-265 | The median of 5, 3, 1, 4 is 3.5, and that of 5, 3, 1 is 3. |
| Examples.ThresholdOfPeak | AIS_Analysis.py:286-302 | 0, 1, 5, 9, 5, 1, 0 at fraction 0.5 gives threshold 4.5 and the window 2..4. |
| Examples.TrimOfPeak | AIS_Analysis.py:325-329 | The trimmed series of that peak is 5, 9, 5, at distances 2, 3, 4. |
| Examples.CutOfTrailingZeros | AIS_Analysis.py:314-322 | 3, 2, 1, 0, 0 keeps two samples. An all-zero series and an empty series keep none. |
| Examples.OrientationExample | AIS_Analysis.py:165-177 | A path from (0,0) to (2,0), with nuclei at x = −2 and x = 3, is reversed and takes the second nucleus. |

## Left out

- File and persistence I/O: file pairing, image and ROI loading, TIFF and CSV writing, and the batch driver with its blanket exception handler (AIS_Analysis.py:43-71, 463-479 and the rest of the script). These are operating-system effects.
- ImageJ/Fiji library calls. These are thresholding, median filtering, dilation, skeletonization (`AnalyzeSkeleton_`), `Straightener`, "Analyze Particles" and the background statistics. They are foreign code; their results (skeleton graphs, end-points, shortest paths, strip pixels, calibration) are inputs to the model.
- `Roi.getAngle` and the `angles` list of `local_angles` (AIS_Analysis.py:93-95). This is a library call; only the marker geometry is modelled.
- The drawing of the skeleton image (AIS_Analysis.py:180-224). This covers the polygon ROI, angle-to-pixel encoding, nucleus fills and colours, titles and names. It is display only.
- The `Plot` construction, legend and `ResultsTable` filling in `create_plot` (AIS_Analysis.py:331-372). They display the series the model builds.
- `add_to_summary` (AIS_Analysis.py:481-494). It reads a hard-coded column index of the results table, whose layout is not part of this model.
- The `process_image` glue (AIS_Analysis.py:378-461). This includes the background level, the truncated mean of the background ROI means (lines 400-407), and its subtraction from the image through ImageJ's "Subtract..." (line 437); the strip pixels the model takes are those after subtraction. It also includes the guard `len(points) > 1` and the threshold scaling for "sum" at lines 453-454. That scaling multiplies the threshold in place on every ROI, so it compounds across ROIs; the model takes the threshold as given.
- The `nuclei_rois is None` path of `create_skeleton`. The nucleus loop at AIS_Analysis.py:200 iterates `nuclei_rois` unconditionally, so that path fails later anyway, and the script always passes a list. `SelectPath` always associates a nucleus.
- The `if graph:` guard (AIS_Analysis.py:134). A missing graph is modelled as an empty list of graphs, which prunes nothing, the same outcome.
- The early return when there is no shortest path (AIS_Analysis.py:156-157). It is modelled as the `NoShortestPath` result of `SelectPath`, not as a tuple of `None`s.
- `scope = sample_width // 2` (AIS_Analysis.py:190). `LocalOrthogonals` takes the scope directly.
- IEEE double rounding. All arithmetic is over exact reals, and `int()` is modelled by `Geometry.Trunc`.
- Landmarks.FindClosest: reports the squared distance and compares squared distances instead of calling `math.sqrt`. The square root is monotone, so the chosen landmark and the orientation decision are the same, but the distance value is the square of the one the script reports, and the sentinel is `sys.float_info.max` squared.
- Aggregation.Lower: lower-cases ASCII letters only. Python's `str.lower` also maps other Unicode letters; the method names compared against are ASCII.
- Pixel values of the pruned image are natural numbers keyed by coordinate. `setVoxel` outside the image is ignored, as ImageJ's `ImageStack.setVoxel` does.
- Nucleus identity (`nroi1 != nroi2`) is modelled as inequality of list positions. Two list entries holding the same ROI object would compare equal in the script.
