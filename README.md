# Sargassum detection on Sentinel-2 scenes, modelled in Dafny

This project models the core of the sargassum-busters ASI repository, which
detects floating Sargassum seaweed in Sentinel-2 Level-2A products:

- **The index contract** (`Sargassum_Index.py`). An index has a name, a list of
  required channels and a `compute` that maps a dictionary of band rasters to
  a raster of scores. The base class only raises `NotImplementedError`.
- **AFAI** (`AFAI.py`), the Alternative Floating Algae Index. It is computed
  cell by cell from bands B04, B06 and B8A: NIR minus the RED–SWIR baseline
  interpolated at NIR's wavelength.
- **ASI** (`ASI.py`), the Automatic Sargassum Index. A neural network scores
  each pixel from nine bands. The class loads its network, builds the
  pixel-by-band feature matrix, predicts and reshapes the scores. It also
  loads training sets in two layouts and evaluates a network on a labelled
  set (confusion matrix and rates).
- **The detection pipeline** (`detect_sargassum.py`):
  - reads the tile and sensing time from the SAFE product name;
  - computes the index, optionally thresholds it to 0/1 and optionally masks
    pixels by their scene classification (SCL) class;
  - names the .npy, GeoTIFF and JPEG2000 outputs.
- **Training-set generation** (`generate_training_set.py`). AFAI labels the
  pixels. The nine ASI bands and the labels are then stored either as a full
  (NX, NY, 10) cube or as a small balanced table of 12 columns.
- **The SCL viewer** (`plot_SCL.py`):
  - the table of the twelve scene classes with their hexadecimal colours;
  - `hex_to_rgb`;
  - the per-class pixel report;
  - the painted RGB image.

## How the model is built

- **Pure code becomes functions and lemmas.** This covers the index formula,
  name parsing, `hex_to_rgb`, the rates and `np.argwhere`.
- **State that the source updates in place becomes a class or an array.**
  - `Asi.AsiIndex` holds the model path, the network and the batch size that
    `compute` overwrites.
  - `PlotScl.ClassTable` holds the class dictionary that the colour loop
    updates.
  - The feature matrix, the masked result, the relabelled labels, the packed
    table and the RGB image are arrays filled by loops.
- **Each method is proved equal to a specification function.** Examples:
  `Asi.AsiIndex.Compute` equals `Asi.ComputeSpec`, and
  `DetectSargassum.Detect` equals `DetectSargassum.DetectSpec`. The
  properties are then proved as lemmas about those functions.
- **Python exceptions are values.** `KeyError`, `IndexError`,
  `NotImplementedError`, a date that does not parse, a dataset that did not
  load and a network input mismatch are cases of a `Result` error. Each is
  raised in the order the code meets them.
- **numpy's row-major reshape is `Common.Ravel` / `Common.Reshape`.** Both
  round trips between them are proved.
- **Outside inputs are parameters.** These include:
  - the band loaders (`load_channels`, `load_SCL`);
  - the Keras network, a `Model` of an input width and a scoring function;
  - `random.sample`, a sampler parameter with the guarantees
    `random.sample` gives;
  - the colour parser used by the colour loop.

## Model

| member | source | states |
|---|---|---|
| SargassumIndex.BaseDoesNotOverride | Sargassum_Index.py:19-21 | the base index has neither a name nor required channels, so it does not count as a concrete index |
| SargassumIndex.BaseCompute | Sargassum_Index.py:24-31 | the base compute fails with NotImplementedError on every input |
| Afai.BandTable | AFAI.py:15-20 | the required channels are RED, NIR, SWIR in that order; the wavelengths increase; NIR sits 75/200 of the way from RED to SWIR |
| Afai.PixelExample | AFAI.py:39-41 | a worked cell: RED 0.1, NIR 0.3, SWIR 0.5 gives baseline 0.25 and AFAI 0.05 |
| Afai.PixelSign | AFAI.py:39-41 | AFAI is zero exactly when NIR lies on the RED–SWIR baseline, and positive exactly when NIR is above it |
| Afai.PixelFlatBaseline | AFAI.py:39-41 | when RED equals SWIR, AFAI is NIR minus RED |
| Afai.Compute | AFAI.py:29-47 | a missing band fails with KeyError on B04, then B06, then B8A; a verbose index fails with the ValueError of min() on an empty raster; success holds exactly when the three bands are present, share one shape and, for a verbose index, are not empty; the result has that shape and holds the per-cell formula |
| Afai.ComputeIsLocal | AFAI.py:39-41 | a result cell depends only on the three band values at that cell, whether or not the index is verbose |
| Afai.ComputeExample | AFAI.py:39-41 | the index of a concrete 2 x 2 scene, cell by cell |
| Asi.Predict | ASI.py:303 | prediction succeeds exactly when the matrix width equals the network's input width, with one score per row; otherwise it fails with an input mismatch |
| Asi.FirstColumnError | ASI.py:284-286 | no error is reported exactly when every column from i on can be filled |
| Asi.FirstColumnErrorAt | ASI.py:284-286 | the error reported is that of the first column that cannot be filled |
| Asi.ColumnsFit | ASI.py:284-286 | when no column fails, every flattened channel has exactly NTOT values |
| Asi.FeatureMatrix | ASI.py:284-286 | the feature matrix exists exactly when no column fails, otherwise carries the first column's error, and has NTOT rows of NCH values |
| Asi.ComputeSpec | ASI.py:273-308 | a missing first channel is a KeyError on B02; without a network compute fails; a result has the first channel's shape |
| Asi.AsiIndex.constructor | ASI.py:34-41 | a new index stores the model path and batch size, and holds the network loaded from the path when a path is given |
| Asi.AsiIndex.LoadModel | ASI.py:45-50 | after loading, the index remembers the path and the network |
| Asi.AsiIndex.Compute | ASI.py:273-308 | a given batch size replaces the stored one and an absent one keeps it; the result equals ComputeSpec on the current network |
| Asi.FillColumns | ASI.py:284-286 | the column loop yields a fresh NTOT x NCH buffer, the first column error (if any), and otherwise exactly the feature matrix |
| Asi.CopyColumn | ASI.py:286 | column i of the buffer becomes the flattened channel, and every other column is unchanged |
| Asi.ScoreRows | ASI.py:303 | the scores read back from the buffer are the network's prediction on the feature matrix |
| Asi.ComputeAtPixel | ASI.py:278-306 | with all nine bands of shape (NX, NY), the result cell (x, y) is the network's score of that pixel's nine band values |
| Asi.ConstantScorer | ASI.py:303-306 | a network that gives every row the same score yields a raster of that score |
| Asi.ExtraEntriesFail | ASI.py:278-286 | a dictionary with more entries than required channels makes compute fail |
| Asi.SuccessNeedsExactChannels | ASI.py:278-303 | for the nine-input network, success implies the dictionary holds exactly the nine channels, all of the first one's size |
| Asi.ExactChannelsSucceed | ASI.py:278-303 | for the nine-input network, exactly the nine channels of one size make compute succeed |
| Asi.ComputeSucceedsIff | ASI.py:278-303 | both directions of the previous two: success holds if and only if the keys are the nine channels and their sizes agree |
| Asi.MissingChannelFails | ASI.py:278-286 | any missing required channel makes compute fail |
| AsiDataset.NamesMatchBands | ASI.py:61 | the table and cube column names list the nine ASI bands in ASI's order, followed by the label column |
| AsiDataset.Trunc | ASI.py:64 | astype(int) truncates toward zero for both signs |
| AsiDataset.TruncOfInteger | ASI.py:74 | whole-number labels are read back unchanged |
| AsiDataset.LoadMLDataset | ASI.py:54-76 | other ranks fail; a table needs 12 columns and a cube depth 10, or IndexError; features are nine band values per sample, labels the truncated label column, and cube samples are pixels in row-major order |
| AsiDataset.CubeSample | ASI.py:71-74 | cube pixel (x, y) becomes sample x*NY+y, with its first nine values as features and its tenth as label |
| AsiEvaluation.DropMasked | ASI.py:196-197 | removing masked pixels leaves no label 2, keeps every other label's count, and keeps only pairs of the original set |
| AsiEvaluation.Relabel | ASI.py:200 | label 2 becomes 0 and every other label is kept |
| AsiEvaluation.RelabelCounts | ASI.py:200 | relabelling adds the masked count to class 0 and leaves every other class's count alone |
| AsiEvaluation.RelabelMasked | ASI.py:200 | the in-place relabelling leaves the array equal to Relabel of its old contents |
| AsiEvaluation.Classify | ASI.py:225-228 | predictions are 0 or 1, and 1 exactly where the score reaches the threshold |
| AsiEvaluation.ClassifyPredictions | ASI.py:225-228 | the two masked assignments compute Classify |
| AsiEvaluation.RowSum | ASI.py:230-236 | with binary predictions, a row of the confusion matrix sums to the count of its label |
| AsiEvaluation.ConfusionMatrix | ASI.py:230 | the matrix exists exactly when all labels and predictions are classes, is square, and entry (i, j) counts samples labelled i and predicted j |
| AsiEvaluation.Ratio | ASI.py:244-252 | a rate is defined exactly when its denominator is positive, times the denominator gives the numerator, and lies in [0, 1] for a part over a whole |
| AsiEvaluation.ComplementaryRatios | ASI.py:244-247 | two parts over their total add up to one |
| AsiEvaluation.MetricsOf | ASI.py:244-252 | every rate is in [0, 1] when defined; sensitivity and miss rate sum to one, as do specificity and fall-out; accuracy is defined exactly when there is a sample |
| AsiEvaluation.FallOutAsWritten | ASI.py:247 | the fall-out as written is FN over FP + TN |
| AsiEvaluation.FallOutAsWrittenDiffers | ASI.py:247 | for TN 9, FP 2, FN 1, TP 8 it gives 1/11 instead of 2/11 and is not the complement of specificity; it can also exceed 1 |
| AsiEvaluation.HarmonicRatios | ASI.py:248-252 | 2TP/(2TP+FP+FN) is the harmonic mean of TP/(TP+FP) and TP/(TP+FN) |
| AsiEvaluation.F1IsHarmonicMean | ASI.py:252 | the F1 score is the harmonic mean of precision and sensitivity |
| AsiEvaluation.ExampleMetrics | ASI.py:244-252 | all rates of a worked confusion matrix |
| AsiEvaluation.TestModelSpec | ASI.py:166-252 | a load failure is passed on; a network whose width is not nine fails; a report's rates are the corrected metrics of its confusion counts |
| AsiEvaluation.TestModel | ASI.py:166-252 | the method with the in-place relabelling and classification equals TestModelSpec |
| Common.CountsOfThreeClasses | ASI.py:186-188 | in a sequence of labels 0, 1 and 2, the three counts add up to its length |
| AsiEvaluation.ReportCounts | ASI.py:186-236 | the three class counts add up to the loaded samples; TP + FN is the sargassum count; TN + FP is the non-sargassum count, plus the masked count when masked pixels are kept |
| ProductName.ParseSensingTime | detect_sargassum.py:40 | an accepted sensing time has 15 characters and is a valid datetime; any other string is a date-format error |
| ProductName.ParseFormat | detect_sargassum.py:40 | every valid instant is read back from its rendering |
| ProductName.FormatParse | detect_sargassum.py:40 | every accepted string is the rendering of the instant read from it, and its date part is its first eight characters |
| ProductName.FormatDateParse | detect_sargassum.py:40 | the date written into file names is the first eight characters of the sensing time |
| ProductName.NumberOfPad | detect_sargassum.py:40 | zero-padding a number that fits and reading it back gives the number |
| ProductName.PadOfNumber | detect_sargassum.py:40 | reading a digit string and padding it back gives the string |
| ProductName.ParseProduct | detect_sargassum.py:37-42 | a name parses exactly when characters 11-25 are a sensing time; the tile is characters 39-43 and the satellite two characters |
| ProductName.Segments | detect_sargassum.py:37 | splitting at '/' gives at least one piece and no piece holds a '/' |
| ProductName.SegmentsOfJoin | detect_sargassum.py:37 | the pieces of dir + "/" + name are those of dir followed by name |
| ProductName.NormComponents | detect_sargassum.py:37 | normpath keeps no empty or "." component and none holding a '/' |
| ProductName.NormComponentsParent | detect_sargassum.py:37 | an ordinary name followed by ".." is undone by normpath |
| ProductName.BaseName | detect_sargassum.py:37 | the base name of the normalised path holds no path separator |
| ProductName.BaseNameOfProductPath | detect_sargassum.py:37 | the product directory's name is recovered from its path, with or without a trailing slash |
| ProductName.BaseNameSkipsDot | detect_sargassum.py:37 | a trailing "/." does not change the base name |
| ProductName.BaseNameOfParent | detect_sargassum.py:37 | a trailing "/.." after an ordinary name gives the base name of the directory holding it |
| ProductName.JoinPath | detect_sargassum.py:123 | a relative name is appended to the directory: the directory is a prefix and the name a suffix |
| ProductName.OutputFileName | detect_sargassum.py:118-119 | the file name is the tile, the sensing date, the index name without spaces and the extension, at fixed positions |
| ProductName.FileNameOf | detect_sargassum.py:118-119 | an index name without spaces appears unchanged in the file name |
| ProductName.OutputPath | detect_sargassum.py:118-123 | the output goes in the given directory, or inside the product directory itself (dataset_path) when no directory is given |
| ProductName.OutputExtensionsDiffer | detect_sargassum.py:119 | two formats of one product and index never share a path |
| ProductName.ExampleProduct | detect_sargassum.py:37-42 | the worked SAFE name gives tile 16QEJ, sensing 2019-07-06 16:08:39 and satellite 2A |
| DetectSargassum.ComputeIndex | detect_sargassum.py:88 | a computed index has the shape of the first required channel |
| DetectSargassum.Threshold | detect_sargassum.py:98 | the thresholded raster has the index's shape and is 1 exactly where the index reaches the threshold, else 0 |
| DetectSargassum.AsSamples | detect_sargassum.py:88 | an unthresholded result keeps each index value |
| DetectSargassum.Mask | detect_sargassum.py:103-111 | every pixel whose SCL class is not kept gets the masked value, and the others keep theirs |
| DetectSargassum.MaskInPlace | detect_sargassum.py:103-111 | the in-place masking leaves the array equal to Mask of its old contents |
| DetectSargassum.NewArray | detect_sargassum.py:98 | a fresh array holds the given grid |
| DetectSargassum.FinishInPlace | detect_sargassum.py:93-111 | threshold and mask done on an array give the specified raster |
| DetectSargassum.Jp2WrittenAsWritten | detect_sargassum.py:156-160 | the JPEG2000 guard as written compares the dtype with "utin8" |
| DetectSargassum.Jp2NeverWritten | detect_sargassum.py:156-160 | as written, no JPEG2000 file is ever written, even for a thresholded uint8 raster |
| DetectSargassum.Jp2Written | detect_sargassum.py:156-160 | the intended guard writes JPEG2000 only for a uint8 raster |
| DetectSargassum.Jp2WrittenIffThresholded | detect_sargassum.py:156-160 | with the intended guard, a JPEG2000 file is written exactly when it is asked for and the result is thresholded |
| DetectSargassum.Selected | detect_sargassum.py:116-177 | the written files are exactly the candidates whose flag is set, once each |
| DetectSargassum.WrittenPathsChoice | detect_sargassum.py:116-177 | with the intended JPEG2000 guard, .npy and GeoTIFF files are written exactly when asked for, and JPEG2000 exactly when asked for and thresholded |
| DetectSargassum.WrittenPathsAsWritten | detect_sargassum.py:116-177 | with the guard as written, exactly the .npy and GeoTIFF files asked for are written, which is the intended list less its JPEG2000 entry |
| DetectSargassum.DetectSpec | detect_sargassum.py:19-181 | a product name that does not parse is a date-format error; bands that did not load are an error; a result has the first channel's shape |
| DetectSargassum.DetectResult | detect_sargassum.py:88-111 | a successful run returns the computed index after the threshold and the mask asked for |
| DetectSargassum.RawIndex | detect_sargassum.py:88 | without threshold and mask the result is the index itself |
| DetectSargassum.ThresholdedIndex | detect_sargassum.py:93-98 | a thresholded, unmasked result is 1 exactly where the index reaches the threshold |
| DetectSargassum.MaskedClasses | detect_sargassum.py:98-109 | a thresholded, masked result is 2 exactly off the kept SCL classes, and elsewhere 1 or 0 by the threshold |
| DetectSargassum.MaskedScores | detect_sargassum.py:103-111 | a masked, unthresholded result holds the masked value off the kept classes and the index elsewhere |
| DetectSargassum.MissingSclMasksEverything | detect_sargassum.py:70-71 | with no SCL and quiet output, the mask keeps nothing and every pixel is 2 |
| DetectSargassum.VerboseNeedsScl | detect_sargassum.py:73-80 | with verbose output a missing SCL stops the run |
| DetectSargassum.WrittenFiles | detect_sargassum.py:116-177 | with the intended JPEG2000 guard, a run writes one file per format asked for, named after the product and index, with JPEG2000 only for a thresholded result |
| DetectSargassum.Detect | detect_sargassum.py:19-181 | detection through the index object equals DetectSpec, and leaves the ASI object unchanged |
| TrainingSet.LabelOptions | generate_training_set.py:94 | labelling runs detection masked and thresholded at the AFAI threshold, writing no file |
| TrainingSet.LabelGrid | generate_training_set.py:94 | the labels are a rectangular grid of 0, 1 and 2 |
| TrainingSet.FullSet | generate_training_set.py:114-118 | the full cube has one entry per pixel: its nine ASI bands followed by its label |
| TrainingSet.FullArray | generate_training_set.py:112-118 | the full set exists exactly when the nine bands loaded with the label grid's shape, and is a depth-10 cube |
| TrainingSet.FullSetRoundTrip | generate_training_set.py:117-118 | loading the full set gives, for pixel x*NY+y, the bands ASI would see and the pixel's label |
| TrainingSet.FullSetLabels | generate_training_set.py:117-118 | loading the full set gives back the labels in row-major order |
| TrainingSet.Hits | generate_training_set.py:128-129 | the increasing positions holding a value, all of them |
| TrainingSet.Argwhere | generate_training_set.py:128-129 | exactly the cells holding a value, each in the grid, in row-major order |
| TrainingSet.PackRows | generate_training_set.py:143-153 | one row per packed pixel: its coordinates, its nine bands and its label |
| TrainingSet.Pack | generate_training_set.py:143-153 | the packing loop fills an array whose rows are PackRows |
| TrainingSet.PackRow | generate_training_set.py:145-153 | one loop step writes row k and leaves the other rows unchanged |
| TrainingSet.SmallSetError | generate_training_set.py:112-138 | the small set cannot be built exactly when the sample is larger than its population, or there are pixels to pack and the bands did not load with the mask's shape |
| TrainingSet.CoordsAsWritten | generate_training_set.py:128-153 | the pixels packed as written are balanced when there are at least twice as many non-sargassum pixels |
| TrainingSet.SmallArrayAsWritten | generate_training_set.py:128-153 | as written, the small set needs twice as many non-sargassum pixels as sargassum ones, or fails with IndexError |
| TrainingSet.SampledCoords | generate_training_set.py:138 | the intended pixels are the sargassum pixels then a random sample of as many non-sargassum ones, all distinct |
| TrainingSet.SampleIsBalanced | generate_training_set.py:138-153 | the sargassum pixels and a valid sample of non-sargassum pixels form a balanced, duplicate-free set |
| TrainingSet.SmallArray | generate_training_set.py:138 | the intended small set is a well-shaped 12-column table when there are enough non-sargassum pixels |
| TrainingSet.PackedTable | generate_training_set.py:143-153 | loading a packed table gives back each packed pixel's bands and label |
| TrainingSet.BalancedLabels | generate_training_set.py:143-153 | a balanced table loads as n ones followed by n zeros |
| TrainingSet.SmallSetBalanced | generate_training_set.py:138-153 | the intended small set loads as 2n samples, half sargassum and half not |
| TrainingSet.SmallSetAsWrittenFails | generate_training_set.py:148 | with fewer than twice as many non-sargassum pixels, the code as written fails where the intended one succeeds |
| TrainingSet.OnePairMask | generate_training_set.py:148 | a 1 x 2 mask with one pixel of each label is such an input |
| TrainingSet.TrainingSetName | generate_training_set.py:156 | the file name is "T", the tile, the sensing time and the full or small suffix, ending in ".npy" |
| TrainingSet.ExampleTrainingSetName | generate_training_set.py:156 | the worked product name gives T16QEJ_20190706T160839 followed by the suffix |
| TrainingSet.GenerateSpec | generate_training_set.py:18-160 | a failed labelling run is passed on; the output path is the training-set name in the output directory; the data is a cube exactly for the full set |
| TrainingSet.GeneratedLabels | generate_training_set.py:94-153 | the stored labels are AFAI's: the full set keeps every pixel's label, and the small set is half ones and half zeros |
| TrainingSet.GenerateTrainingSet | generate_training_set.py:18-160 | the method with the packing loop equals GenerateSpec |
| PlotScl.LStrip | plot_SCL.py:70 | lstrip removes exactly the leading run of the character: the result is a suffix, everything removed was that character, and the result does not start with it |
| PlotScl.HexField | plot_SCL.py:71 | int(s, 16): a non-empty string of hexadecimal digits is read as its base-16 value, after Python's whitespace is stripped and a sign read; an empty field, and any failure, is a ValueError |
| PlotScl.HexToRgb | plot_SCL.py:69-71 | a failure is always the ValueError of int(s, 16) |
| PlotScl.HexToRgbStrips | plot_SCL.py:70 | leading '#' characters do not change the result |
| PlotScl.ShortHexFails | plot_SCL.py:71 | four characters or fewer after the leading '#'s leave the third field empty, a ValueError |
| PlotScl.HexDigitsParse | plot_SCL.py:71 | six hexadecimal digits parse to their three byte values |
| PlotScl.ParseFormatHex | plot_SCL.py:69-71 | every byte triple is read back from its "#rrggbb" spelling |
| PlotScl.FormatParseHex | plot_SCL.py:69-71 | every lower-case "#rrggbb" string parses to a byte triple whose spelling is that string |
| PlotScl.HexToRgbOfStripped | plot_SCL.py:70 | parsing with or without the '#' gives the same colour |
| PlotScl.HexToRgbExamples | plot_SCL.py:69-71 | worked colours of the class table |
| PlotScl.HexToRgbShortExample | plot_SCL.py:71 | a worked short colour that fails to parse |
| PlotScl.ClassTableCodes | plot_SCL.py:53-66 | the table lists codes 0 to 11 once each, and code 6 is WATER |
| PlotScl.PaletteSpelling | plot_SCL.py:53-66 | every class colour spells its palette entry |
| PlotScl.TableColours | plot_SCL.py:53-76 | every class colour parses to a byte triple, its palette entry |
| PlotScl.ClassTable.constructor | plot_SCL.py:53-66 | the new table holds the twelve classes in code order |
| PlotScl.ClassTable.AddRgbColours | plot_SCL.py:75-76 | the colour loop colours each class in order until a colour fails to parse; it reports that failure, and otherwise all classes are coloured and nothing else changes |
| PlotScl.DefaultColours | plot_SCL.py:75-76 | on the table plot_SCL builds no colour fails, and every class gets exactly its palette colour |
| PlotScl.Histogram | plot_SCL.py:89-90 | the unique values present, in increasing order, each with its positive pixel count |
| PlotScl.HistogramCovers | plot_SCL.py:89-90 | every value of the raster has its line in the histogram |
| PlotScl.HistogramSum | plot_SCL.py:89-90 | the counts add up to the number of pixels |
| PlotScl.ReportLines | plot_SCL.py:91-92 | the report exists exactly when every code is in the table; a missing code is a KeyError on that code; each line holds the code, the class name and the count |
| PlotScl.ReportLinesCounted | plot_SCL.py:89-92 | the report has one line per code present, in increasing order, with the class name and pixel count, and every pixel's code has a line |
| PlotScl.ReportSucceeds | plot_SCL.py:91-92 | the report succeeds exactly when every pixel code is in the class table |
| PlotScl.ReportKeyError | plot_SCL.py:91-92 | a failed report is the KeyError of a code present in the raster and absent from the table |
| PlotScl.ReportCountsSum | plot_SCL.py:86-92 | the report's counts add up to nx * ny |
| PlotScl.Paint | plot_SCL.py:97-99 | the buffer is (ny, nx, 3); a non-square raster is an IndexError; otherwise every pixel has its class colour, or black when no class matches |
| PlotScl.PaintClass | plot_SCL.py:99 | one class step paints exactly the pixels of that class in its colour |
| PlotScl.ClassColour | plot_SCL.py:97-99 | a code of the table gets its palette colour, any other code black |
| PlotScl.LayerImage | plot_SCL.py:97-99 | the buffer painted with every class shows each pixel in its class colour |
| PlotScl.PlotSclLayer | plot_SCL.py:86-100 | an empty raster fails first, with the ValueError of min(); an unknown code fails the report with its KeyError; an image is made exactly when shown or saved, fails with IndexError unless the raster is square, and otherwise colours every pixel by its class |
| PlotScl.NewColouredTable | plot_SCL.py:53-76 | after the colour loop, every class keeps its name and colour and carries its palette colour |
| Common.RavelReshape | ASI.py:72 | flattening a reshaped sequence gives the sequence back |
| Common.ReshapeRavel | ASI.py:306 | reshaping a flattened grid gives the grid back |
| Common.ReshapeAt | ASI.py:306 | reshaped cell (x, y) is flattened position x*NY+y |

## Left out

- File and network I/O is not modelled. This covers rasterio and Sentinel-2
  band reading (`load_channels`, `load_SCL`), `np.save` and `np.load`, and
  GeoTIFF, JPEG2000 and PNG writing with their metadata. Loaded data comes in
  as parameters; a run that writes files returns their paths.
- Keras is not modelled. The network is a `Model` value: an input width and a
  scoring function. `load_model` takes the loaded network as a parameter,
  and `__init__` takes the loader.
- `train_model` (ASI.py:80-162) is left out. It is TensorFlow training, with
  no behaviour checkable without the library.
- `batch_size` and `verbose` are passed to `model.predict` but do not change
  its result, so only the stored batch size is modelled.
- Progress messages and `show_image` are left out, as are all printed
  statistics and percentages. The printouts that can fail are modelled as
  errors: the SCL percentages at detect_sargassum.py:73-80 (no SCL, or an
  empty one), the minimum and maximum of a verbose AFAI at AFAI.py:43-45 and
  of the SCL at plot_SCL.py:88 (an empty raster), and the percentages at
  generate_training_set.py:103-107.
- Floating point is modelled as exact reals. This covers float32 and float64
  rounding, and nan or inf from a zero division; `AsiEvaluation.Ratio` makes
  such a rate undefined instead.
- `ProductName.ParseSensingTime` reads only the fixed-width digits of the
  SAFE layout. It does not model the other spellings `strptime` tolerates,
  such as one-digit fields or leading spaces.
- `PlotScl.HexField` and `PlotScl.HexToRgb` read ASCII hexadecimal digits,
  the whitespace Python strips and a sign, as `int(s, 16)` does on a
  two-character field. They do not model the non-ASCII decimal digits
  Python also accepts.
- `Afai.Compute` fails with a broadcast error whenever the three bands differ
  in shape. numpy broadcasts compatible shapes, such as a band of one row;
  bands loaded at one resolution from one product all have the same shape.
- `DetectSargassum.DetectSpec`, `DetectSargassum.Detect`,
  `DetectSargassum.WrittenPathsChoice` and `DetectSargassum.WrittenFiles` use
  the intended JPEG2000 guard, so a thresholded result asked for as JPEG2000
  is listed as written. As written the file is never saved
  (`DetectSargassum.Jp2NeverWritten`); `DetectSargassum.WrittenPathsAsWritten`
  states the list the code as written produces.
- `TrainingSet.GenerateSpec` and `TrainingSet.GenerateTrainingSet` pack the
  intended random sample of non-sargassum pixels. The packing as written is
  `TrainingSet.SmallArrayAsWritten`: it packs the non-sargassum pixels n to
  2n - 1 in order, and raises IndexError when there are fewer than 2n of
  them, as on the mask [[1, 0]] (`TrainingSet.SmallSetAsWrittenFails`).
- `TrainingSet.SmallSetError` fails whenever there are pixels to pack and a
  required band is missing or not of the mask's shape. The code reads the
  bands only at the packed pixels, so a larger band would not fail there.
  Both rasters are loaded at 20 m from the same product, so they have the
  mask's shape.
- `PlotScl.ClassTable.AddRgbColours` takes the colour parser as a parameter.
  Its contract holds for any parser; `PlotScl.NewColouredTable` instantiates
  it with `HexToRgb`.
- `TrainingSet.SampledCoords` does not model the randomness of
  `random.sample`. It holds for any sampler meeting the guarantees of
  `random.sample`: k distinct positions of the population.
- The unused `out_fname` at generate_training_set.py:88 is left out, since it
  is overwritten at line 156.
- `AsiEvaluation.TestModelSpec` uses the corrected fall-out. The value the
  code prints is `AsiEvaluation.FallOutAsWritten`.

## Findings

| source | as written | input that shows it | evidently intended | confidence | as-written member | corrected member |
|---|---|---|---|---|---|---|
| ASI.py:247 | `fall_out = FN/(FP+TN)` | TN 9, FP 2, FN 1, TP 8: prints 1/11, while the false-positive rate is 2/11; TN 1, FP 0, FN 5 gives 5, above 1 | `FP/(FP+TN)`, the complement of specificity | high, not executed | AsiEvaluation.FallOutAsWrittenDiffers | AsiEvaluation.MetricsOf |
| detect_sargassum.py:156 | `result.dtype not in ["utin8"]` | any thresholded (uint8) result with save_jp2 set: the guard still disables JPEG2000 | compare with "uint8", so thresholded results are saved | high, not executed | DetectSargassum.Jp2NeverWritten | DetectSargassum.Jp2WrittenIffThresholded |
| generate_training_set.py:148 | `i, j = not_sargassum_coords[k]` in the second packing loop, ignoring the random sample taken at line 138 | the mask [[1, 0]]: one sargassum and one non-sargassum pixel; k runs from 1 past the single non-sargassum coordinate and raises IndexError | `nonsarg_coords[k - num_sarg]`, the sampled non-sargassum pixels | high, not executed | TrainingSet.SmallSetAsWrittenFails | TrainingSet.SmallSetBalanced |
