# Loss selection, SSIM and AnoGAN anomaly scoring in Dafny

This project models two pieces of a C++/libtorch collection of deep-learning programs.

ConvAE's loss module (`ConvAE/src/loss.cpp`):
- A `Loss` object is built from a name. `"l1"`, `"l2"` and `"ssim"` select the mean absolute error, the mean squared error or the SSIM criterion. Any other name ends the program.
- Calling the object runs the selected criterion on an input and a target.
- The SSIM criterion is a function-local static. It is built on the first SSIM call with that input's channel count and the default parameters: window 11, standard deviation 1.5, bases 0.01 and 0.03.
- Its constructor fills a list of Gaussian densities centred at `window_size/2`, normalises the list and takes its outer product. The result is copied once per channel into a depthwise `(nc, 1, ws, ws)` window.
- The structural similarity takes five zero-padded depthwise convolutions of `x`, `y`, `x*x`, `y*y` and `x*y`. It forms the SSIM quotient at every position and averages it. The loss is the negated average.

AnoGAN's test routine (`Anomaly_Detection/AnoGAN2d/src/test.cpp`):
- The latent vector `z` and its Adam optimizer are created once.
- For every test image, `z` is moved by `search_epoch` optimizer steps towards a latent vector whose generated image resembles the test image.
- The final generated image is scored. The score mixes a residual loss (the summed absolute pixel difference) and a discrimination loss (the summed absolute difference of discriminator features), with weight `Lambda` on the second.
- Each image gets a log line. The running totals are divided by the dataset size at the end.

Modules:
- `Numerics`: real arithmetic, sums, means, NaN-producing divisions (`Scalar.NonFinite`), weighted moments and the variance/covariance bounds.
- `Tensors`: 4-D tensors as nested sequences, shapes, entry-wise maps, flattening and grouped zero-padded cross-correlation.
- `GaussWindow`: the Gaussian list and the window.
- `Ssim`: the SSIM map, the structural similarity and the `SSIMLoss` class.
- `Losses`: the selector and the call operator with its static.
- `AnoGan`: the anomaly score, the latent search and the test loop.

Modelling choices:
- Tensor values are mathematical reals.
- A division by zero, or the mean of an empty tensor, yields `NonFinite`, the model's stand-in for a float NaN or infinity.
- A shape mismatch that would make libtorch throw yields `ShapeError`.
- `exp` is a parameter of type `ExpFn`, a function with positive values. Its monotonicity is the separate predicate `Increasing`, needed only for the peak property.
- The networks, the Adam update rule and each image's processing time are parameters.

## Model

| member | source | states |
|---|---|---|
| Losses.Select | ConvAE/src/loss.cpp:16-30 | "l1", "l2" and "ssim" give flags 0, 1 and 2, each if and only if; every other name gives no selector (the program exits) |
| Losses.SelectName | ConvAE/src/loss.cpp:16-30 | a selector is produced by a name exactly when its flag is at most 2 and the name is that flag's name |
| Losses.SelectInjective | ConvAE/src/loss.cpp:16-30 | two accepted names that give the same selector are the same name |
| Losses.Criteria.constructor | ConvAE/src/loss.cpp:45 | before any call the SSIM static does not exist yet |
| Losses.Criteria.Call | ConvAE/src/loss.cpp:36-47 | flag 0 returns the mean absolute error, flag 1 the mean squared error, both without touching the static; any other flag builds the SSIM criterion on the first such call (fresh, with this input's channel count and window 11, std 1.5, bases 0.01 and 0.03), keeps it unchanged afterwards, and returns that criterion's loss |
| Losses.StaticKeepsChannels | ConvAE/src/loss.cpp:45 | once built, the static rejects an input whose channel count differs from the first call's |
| Losses.MeanAbsolute | ConvAE/src/loss.cpp:38-39 | the L1 criterion is an error exactly when the two tensors differ in shape, and otherwise its mean is finite exactly when the tensors are non-empty |
| Losses.MeanSquared | ConvAE/src/loss.cpp:42-43 | the MSE criterion is an error exactly when the two tensors differ in shape, and otherwise its mean is finite exactly when the tensors are non-empty |
| Losses.ZeroDifferences | ConvAE/src/loss.cpp:37-44 | entry-wise non-negative differences of same-shape tensors have a non-negative sum, which is zero exactly when the tensors are equal |
| Losses.MeanAbsoluteZero | ConvAE/src/loss.cpp:37-40 | the L1 mean of non-empty same-shape tensors is finite, non-negative, and zero exactly when input equals target |
| Losses.MeanSquaredZero | ConvAE/src/loss.cpp:41-44 | the MSE mean of non-empty same-shape tensors is finite, non-negative, and zero exactly when input equals target |
| Ssim.SSIMLoss.constructor | ConvAE/src/loss.cpp:53-96 | stores the parameters (defaults 11, 1.5, 0.01, 0.03); the loop-filled list of Gaussian densities, normalised, outer-multiplied and copied per channel, is the Gaussian window of those parameters |
| Ssim.FillGaussList | ConvAE/src/loss.cpp:61-65 | the constructor's loop fills a fresh list of window_size entries equal to the Gaussian list: entry i is the density at i around window_size/2 |
| GaussWindow.GaussianPdf | ConvAE/src/loss.cpp:62 | the density is positive |
| GaussWindow.GaussList | ConvAE/src/loss.cpp:61-65 | the list has window_size entries |
| GaussWindow.GaussListEntry | ConvAE/src/loss.cpp:62-64 | entry i is the density at i around the mean window_size/2 (integer division) |
| GaussWindow.GaussListPositive | ConvAE/src/loss.cpp:61-69 | every entry and the sum are positive, so the normalisation divides by a non-zero sum |
| GaussWindow.GaussDependsOnDistance | ConvAE/src/loss.cpp:62-64 | two entries at the same distance from window_size/2 are equal |
| GaussWindow.GaussSymmetric | ConvAE/src/loss.cpp:61-65 | for an odd window size the list is symmetric: entry i equals entry ws-1-i |
| GaussWindow.GaussPeak | ConvAE/src/loss.cpp:61-65 | with an increasing exp, the entry at window_size/2 is the largest |
| GaussWindow.ExponentNonpositive | ConvAE/src/loss.cpp:62 | the exponent is at most 0 and is 0 at the mean |
| GaussWindow.GaussianWindow | ConvAE/src/loss.cpp:67-73 | the stored window is a depthwise weight of shape (nc, 1, ws, ws) |
| GaussWindow.Normalize | ConvAE/src/loss.cpp:69 | the normalised list has the list's length, and each entry times the list's sum gives the original entry |
| GaussWindow.Outer | ConvAE/src/loss.cpp:70-71 | the product of the column vector with its transpose is a square plane of the vector's length, and it is symmetric |
| GaussWindow.Replicate | ConvAE/src/loss.cpp:72-73 | the expanded tensor has nc channels, each holding exactly one copy of the plane |
| GaussWindow.NormalizeSum | ConvAE/src/loss.cpp:69 | the normalised list sums to 1 |
| GaussWindow.OuterSum | ConvAE/src/loss.cpp:70-71 | the outer product of a list summing to 1 sums to 1 |
| GaussWindow.OuterEntry | ConvAE/src/loss.cpp:70-71 | entry (i, j) of the outer product is v[i] * v[j] |
| GaussWindow.NormalizePositive | ConvAE/src/loss.cpp:69 | normalising positive entries keeps them positive |
| GaussWindow.WindowShape | ConvAE/src/loss.cpp:72-73 | the window has shape (nc, 1, ws, ws) and every channel holds the same plane |
| GaussWindow.WindowSlice | ConvAE/src/loss.cpp:69-73 | every channel's plane is the outer product of the normalised Gaussian list |
| GaussWindow.WindowSymmetric | ConvAE/src/loss.cpp:70-73 | every channel's plane is symmetric: entry (i, j) equals entry (j, i) |
| GaussWindow.WindowIsDistribution | ConvAE/src/loss.cpp:69-73 | every channel's plane has non-negative entries summing to 1 |
| Tensors.Patch | ConvAE/src/loss.cpp:105 | the patch read at an output position is a k-by-k plane; each entry is the input entry at the offset position when that lies inside the plane, and 0 (the zero padding) otherwise |
| Tensors.WindowBounds | ConvAE/src/loss.cpp:105-114 | a kernel whose weights form a distribution gives a window value within any bounds of the patch it reads |
| Tensors.Correlate | ConvAE/src/loss.cpp:105-114 | one channel's correlation of an h-by-w plane with a k-by-k kernel under padding pad is an (h + 2 pad + 1 - k)-by-(w + 2 pad + 1 - k) plane |
| Tensors.Conv | ConvAE/src/loss.cpp:105-114 | the grouped convolution has shape (n, c, h + 2 pad + 1 - k, w + 2 pad + 1 - k) |
| Tensors.ConvEntry | ConvAE/src/loss.cpp:105-114 | each output entry is the kernel-weighted sum of the zero-padded input patch of its channel |
| Tensors.SamePadding | ConvAE/src/loss.cpp:105 | with an odd kernel and padding k/2 the output keeps the input's shape |
| Ssim.SsimMap | ConvAE/src/loss.cpp:105-119 | the SSIM map has the shape of the convolution outputs |
| Ssim.SsimMapEntry | ConvAE/src/loss.cpp:105-119 | each map entry is the SSIM quotient of the window-weighted means, second moments and cross moment of the two patches, with c1 and c2 the squared bases |
| Ssim.SsimMapSameSize | ConvAE/src/loss.cpp:105-119 | for an odd window size the map has the shape of the input |
| Ssim.SsimValue | ConvAE/src/loss.cpp:117-119 | the quotient is finite exactly when its denominator (mean terms plus c1, times variance terms plus c2) is non-zero, and then the value times the denominator is the numerator |
| Ssim.SsimValueSymmetric | ConvAE/src/loss.cpp:119 | swapping the two images' statistics leaves the quotient unchanged |
| Ssim.SsimValueSelf | ConvAE/src/loss.cpp:119 | for identical statistics the quotient is exactly 1 when the denominator is non-zero, and NaN otherwise |
| Ssim.SsimValueWithin | ConvAE/src/loss.cpp:117-119 | with non-negative constants and variances and the covariance bound, a finite quotient lies in [-1, 1], and it is finite when both constants are positive |
| Ssim.MomentsWithin | ConvAE/src/loss.cpp:105-119 | with weights forming a distribution, the weighted moments meet the variance and covariance bounds, so their quotient is in [-1, 1] when finite and finite when c1, c2 > 0 |
| Ssim.SsimMapWithin | ConvAE/src/loss.cpp:105-119 | with distribution weights every finite entry of the map lies in [-1, 1] |
| Ssim.SsimMapSymmetric | ConvAE/src/loss.cpp:105-119 | the SSIM map of (x, y) equals that of (y, x) |
| Ssim.SsimMapSelf | ConvAE/src/loss.cpp:105-119 | every finite entry of the map of (x, x) is 1 |
| Ssim.StructuralSimilarity | ConvAE/src/loss.cpp:102-123 | the similarity is an error exactly when the images differ in shape or do not fit the window, and a finite value comes only from a non-empty map |
| Ssim.StructuralSimilarityWithin | ConvAE/src/loss.cpp:102-123 | with distribution weights a finite structural similarity lies in [-1, 1] |
| Ssim.StructuralSimilarityFinite | ConvAE/src/loss.cpp:102-123 | with non-zero bases and non-empty accepted images the similarity is finite and in [-1, 1] |
| Ssim.StructuralSimilaritySymmetric | ConvAE/src/loss.cpp:102-123 | the similarity of (x, y) equals that of (y, x), including the error cases |
| Ssim.StructuralSimilaritySelf | ConvAE/src/loss.cpp:102-123 | a finite similarity of an image with itself is 1 |
| Ssim.StructuralSimilaritySelfDefined | ConvAE/src/loss.cpp:102-123 | with non-zero bases and a non-empty accepted image the similarity with itself is exactly 1 |
| Ssim.SSIMLoss.Similarity | ConvAE/src/loss.cpp:102-123 | it is an error exactly when the images differ in shape or do not fit the window, always when the channel count differs from nc; a finite value lies in [-1, 1] |
| Ssim.SSIMLoss.Apply | ConvAE/src/loss.cpp:129-131 | the loss is the exact negation of the similarity, with the same error cases, so a finite loss lies in [-1, 1] |
| Ssim.ApplyIdentical | ConvAE/src/loss.cpp:129-131 | the loss of an image against itself is -1, the best value |
| Ssim.ApplySymmetric | ConvAE/src/loss.cpp:129-131 | the loss is symmetric in its two arguments |
| Numerics.CovarianceBound | ConvAE/src/loss.cpp:112-114 | twice the weighted covariance is bounded in absolute value by the sum of the two weighted variances |
| Numerics.VarianceNonnegative | ConvAE/src/loss.cpp:112-113 | the weighted second moment minus the squared weighted mean is non-negative for distribution weights |
| Numerics.Mean | ConvAE/src/loss.cpp:38-43 | the `kMean` reduction is finite exactly for a non-empty list, and then times the length gives the sum |
| Numerics.MeanScalars | ConvAE/src/loss.cpp:121 | the mean of the SSIM map is finite exactly when the map is non-empty and its sum is finite, and then times the entry count gives the sum |
| Numerics.MeanScalarsBounds | ConvAE/src/loss.cpp:121 | the mean of a non-empty list of finite values in [lo, hi] is finite and in [lo, hi] |
| Numerics.MeanScalarsNonFinite | ConvAE/src/loss.cpp:121 | a single NaN entry makes the mean NaN |
| Numerics.Negate | ConvAE/src/loss.cpp:130 | negation keeps NaN and negates finite values |
| AnoGan.AbsDiffSum | Anomaly_Detection/AnoGAN2d/src/test.cpp:145 | the summed absolute difference is non-negative |
| AnoGan.AbsDiffSumZero | Anomaly_Detection/AnoGAN2d/src/test.cpp:145 | the summed absolute difference is zero exactly when the two vectors are equal |
| AnoGan.AnomalyScore | Anomaly_Detection/AnoGAN2d/src/test.cpp:144-151 | the residual and discrimination losses are non-negative |
| AnoGan.ScoreAtEndpoints | Anomaly_Detection/AnoGAN2d/src/test.cpp:149 | with Lambda 0 the score is the residual loss, with Lambda 1 the discrimination loss |
| AnoGan.PerfectFake | Anomaly_Detection/AnoGAN2d/src/test.cpp:144-151 | the residual loss is zero exactly when the generated image equals the real one, and then all three values are zero |
| AnoGan.ScoreBetween | Anomaly_Detection/AnoGAN2d/src/test.cpp:149 | for Lambda in [0, 1] the score lies between the smaller and the larger of the two losses |
| AnoGan.InitialSearch | Anomaly_Detection/AnoGAN2d/src/test.cpp:68-70 | the search starts at the drawn z with an optimizer that has no moment estimates and has taken no step |
| AnoGan.Step | Anomaly_Detection/AnoGAN2d/src/test.cpp:87-94 | one optimizer step advances the optimizer's step count by one |
| AnoGan.Descend | Anomaly_Detection/AnoGAN2d/src/test.cpp:86-96 | n steps advance the step count by n |
| AnoGan.SearchLatent | Anomaly_Detection/AnoGAN2d/src/test.cpp:86-96 | the search loop's final state is the state after search_epoch steps from where it started |
| AnoGan.StateBefore | Anomaly_Detection/AnoGAN2d/src/test.cpp:68-70 | z and the optimizer are created once and carried over: before image k the optimizer has taken k * search_epoch steps |
| AnoGan.StateAfter | Anomaly_Detection/AnoGAN2d/src/test.cpp:86-101 | the state at which image k is scored is the state image k + 1 starts from, after (k + 1) * search_epoch steps |
| AnoGan.SampleScores | Anomaly_Detection/AnoGAN2d/src/test.cpp:97-101 | image k's residual and discrimination losses are non-negative, and the residual loss is zero exactly when the image generated from the searched z equals the test image |
| AnoGan.NoSearch | Anomaly_Detection/AnoGAN2d/src/test.cpp:86-97 | with search_epoch 0, z never moves: every image is scored against the image generated from the initial z |
| AnoGan.AverageExample | Anomaly_Detection/AnoGAN2d/src/test.cpp:122-125 | the average (`Numerics.Mean`) of 1, 2 and 3 is 2 |
| AnoGan.AverageBounds | Anomaly_Detection/AnoGAN2d/src/test.cpp:122-125 | an average of values in [lo, hi] lies in [lo, hi] |
| AnoGan.Report | Anomaly_Detection/AnoGAN2d/src/test.cpp:122-125 | each of the four averages is finite exactly when the dataset is non-empty (0/0 otherwise) |
| AnoGan.ReportBounds | Anomaly_Detection/AnoGAN2d/src/test.cpp:108-125 | for a non-empty dataset the residual and discrimination averages are finite and non-negative, and the score average lies within any bounds of the per-image scores |
| AnoGan.LogUpTo | Anomaly_Detection/AnoGAN2d/src/test.cpp:113 | the log of the first n images has n lines; line k carries image k's name and non-negative residual and discrimination losses |
| AnoGan.LogTimeAccumulates | Anomaly_Detection/AnoGAN2d/src/test.cpp:111-113 | the time on a log line is the previous line's time plus this image's time |
| AnoGan.LogAppend | Anomaly_Detection/AnoGAN2d/src/test.cpp:108-113 | image n's log line, carrying the accumulated time, extends the log of the first n images |
| AnoGan.ColumnsAppend | Anomaly_Detection/AnoGAN2d/src/test.cpp:108-110 | adding image n's three values to the totals of the first n images gives the totals of the first n + 1 |
| AnoGan.Generator.Eval | Anomaly_Detection/AnoGAN2d/src/test.cpp:73 | switches the generator to evaluation mode and changes nothing else |
| AnoGan.Discriminator.Eval | Anomaly_Detection/AnoGAN2d/src/test.cpp:74 | switches the discriminator to evaluation mode and changes nothing else |
| AnoGan.Test | Anomaly_Detection/AnoGAN2d/src/test.cpp:60-125 | both networks end in evaluation mode with their weights unchanged; the log holds, per image, its name, score, residual and discrimination losses found after the carried-over latent search, and the running time total; the result is the totals divided by the dataset size |

## Left out

- Device placement, `detach`, `torch::cuda::synchronize` and `contiguous`: they do not change values.
- Float rounding: reals stand for 32- and 64-bit floats. The numeric window in the comment table at `ConvAE/src/loss.cpp:78-88` is therefore not checked.
- Broadcasting: in the loss module, tensors of different shapes are a `ShapeError` in the model, although libtorch would sometimes broadcast them. In the AnoGAN test, mismatched sizes are excluded by preconditions instead: `AnoGan.AnomalyScore` requires the two images, and their discriminator features, to have equal sizes, and `AnoGan.WellFormed` requires every generated image to have the size of every test image.
- Empty batches: libtorch's `conv2d` accepts a batch of size 0, so an SSIM call on an empty batch has a NaN mean. In the model a tensor carries no sizes behind an empty axis, and such a call is a `ShapeError`. Empty planes are an error in both: with the default window the padded plane has 10 rows or columns, fewer than the window's 11.
- Losses.Criteria.Call: for the same reason, a first SSIM call on an empty batch of shape (0, c, h, w) builds the static with channel count 0 instead of `input.size(1)` = c. Every later SSIM call on a c-channel input is then a `ShapeError` in the model, while libtorch scores it.
- Ssim.SSIMLoss.constructor: the loop that fills the Gaussian list sits in the helper method `Ssim.FillGaussList`, which the constructor calls.
- Ssim.SSIMLoss.constructor: requires `window_size >= 1` and `gauss_std != 0`. The C++ code would produce NaN windows or an empty window for these inputs; the model does not represent them.
- GaussWindow.GaussianPdf: uses the standardised exponent `-((x - mean) / std)^2 / 2`. Over the reals it equals the source's `-(x - mean)^2 / (2 std^2)`.
- GaussWindow.WindowSlice: states the window's entries as `n[i] * n[j]` with `n = g / sum(g)`, which is the same real number as `g[i] g[j] / sum(g)^2`.
- GaussWindow.GaussPeak: holds only when `exp` is increasing. That is a property of the real exponential, stated here as the predicate `Increasing` rather than proved.
- Losses.Criteria.Call: the L1 and MSE statics hold no parameters, so they are not state in the model. The model keeps one SSIM static per `Criteria` object, shared by every selector, as the function-local static is.
- The reading of the program options, the model checkpoints, the dataset files and the output files: I/O. The loss log is returned as a sequence of lines. `anomaly_score.txt` repeats the score column of that log. The closing `<All>` line carries the returned averages.
- The images saved by `visualizer::save_image` and the progress display: output only.
- The random draw of the initial `z`: it is a parameter.
- Timing: each image's processing time is a parameter.
- The generator and discriminator forward passes: they are opaque functions of their weights.
- Adam's update rule and gradient computation (`zero_grad`, `backward`, `step`): they are one opaque update function of the image, `z`, the moment estimates and the step number. The per-step scores inside the search feed only that update and the display.
- The data loader (`Anomaly_Detection/AnoGAN2d/src/test.cpp:53`) has batch size 1 and no shuffling, so the dataset is the sequence of (image, name) pairs in loader order, and the loop runs once per image.
- `z` and its optimizer are created once, before the loop (`Anomaly_Detection/AnoGAN2d/src/test.cpp:68-70`), so each image's search continues from the previous image's `z` and optimizer state.
