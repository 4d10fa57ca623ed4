# PyASL processing core, modelled in Dafny

This project models the processing core of PyASL, the Python arterial spin
labeling (ASL) toolbox of the OSIPI task force. Each Dafny module follows one
source file:

- `common.dfy` (`Common`): the shared vocabulary. It has the `Result`/`Option`
  wrappers and the Python exceptions as an `Error` datatype. It has
  `Shape`, the (X, Y, Z) size of a numpy image, which the model keeps as a
  flat C-order volume, voxel i being in slice i mod Z. It has `Math`, the record of the transcendental functions
  (exp, log, sin, cos) that the model takes as a parameter. It also has
  generic loops (`Collect`, `CollectLoop`), means and masked sums.
- `context.dfy` (`PipelineContext`): the pipeline context. It is a `class`
  whose `entries` map the steps read and write (`get_required`, `setdefault`,
  item assignment). A `Value` is what YAML or a step can store there, from
  scalars to 3-, 4- and 5-dimensional images.
- `custom_pipeline.dfy` (`CustomPipeline`): the YAML-driven runner. It
  covers key normalisation, path resolution against the configuration
  directory, `{meta: ...}` injection, the alias table, class resolution, the
  parameters a step gets, and the run over the steps.
- `preclinical_trim.dfy`, `preclinical_split.dfy` and
  `preclinical_slice_pld.dfy`: the preclinical steps. `SteadyStateTrim` drops
  the first repetitions. `ControlLabelSplit` splits control and label and
  averages their difference. `SlicePldAdjust` applies the slice-timing
  correction.
- `bruker_io.dfy` (`BrukerIo`): the Bruker JCAMP parameter reader
  `read_nmr_par`. It covers line classification, accumulation into the
  dictionary, and number conversion.
- `data_import.dfy` (`DataImport`): `read_params` validation, the
  post-labeling-delay and volume-type lists, and `make_sidecar`.
- `helpers.dfy` (`MricloudHelpers`): the MRICloud helpers. These are the
  saturation-recovery models (`mricloud_func_recover`), the three-phase
  kinetic models for PCASL and Look-Locker PASL, and the PLD ordering.
- `calculate_cbf.dfy`, `calculate_m0.dfy`, `diffmap.dfy`, `multidelay.dfy`,
  `roi_average.dfy` and `roi_lists.dfy`: the MRICloud modules. They cover the
  difference map, the M0 map, single-delay CBF, the multi-delay CBF/ATT fit,
  the ROI averages and the ROI lookup-table reader.
- `asltbx.dfy` (`AsltbxQuantify`): ASLtbx perfusion quantification. It
  covers the control/label pairing, sinc interpolation, the CBF formula and
  the global means.
- `oxford_split.dfy` and `oxford_run.dfy`: the FSL oxford_asl modules. They
  cover the M0 split of an ASL series, and the command line built for
  `oxford_asl`, with its inversion times collapsed within a tolerance.
- `plotting.dfy` (`Plotting`): the slice mosaic `get_plot_array`.

Each operation is a function on values where the source computes a value.
Where the source updates state it becomes a method on the context class,
or a loop over an `array2` for the mosaic. Each such method is proved
against the function that specifies it. Exceptions are the `Err` side of a
`Result`. numpy's silent NaN and infinity are also reported as
`Err(NotFinite(..))`, naming the division that produced them.

## Model

| member | source | states |
|---|---|---|
| SteadyStateTrim.SliceStart | PyASL/pyasl/modules/preclinical_steady_state_trim.py:18 | numpy's start index for `n:` lies within the axis and is n itself for 0 <= n <= length |
| SteadyStateTrim.Trim | PyASL/pyasl/modules/preclinical_steady_state_trim.py:16-18 | too few repetitions (length <= n) raise the ValueError; otherwise the shape is kept and repetition i of the result is repetition i + n of the input; a non-array raises AttributeError |
| SteadyStateTrim.NegativeTrimKeepsTail | PyASL/pyasl/modules/preclinical_steady_state_trim.py:14-18 | a negative trim passes the guard and keeps the last -n repetitions |
| SteadyStateTrim.TrimStep | PyASL/pyasl/modules/preclinical_steady_state_trim.py:12-18 | only "Image" can change; the step succeeds exactly when `trim` converts to an int, "Image" is present and the trim succeeds; on error nothing changes |
| SteadyStateTrim.DefaultDropsTwo | PyASL/pyasl/modules/preclinical_steady_state_trim.py:14-18 | without a `trim` parameter the first two repetitions are dropped |
| SteadyStateTrim.Run | PyASL/pyasl/modules/preclinical_steady_state_trim.py:12-18 | the context and the raised error are those of TrimStep |
| ControlLabelSplit.Evens | PyASL/pyasl/modules/preclinical_control_label_split.py:20-25 | `0::2` keeps (n+1)/2 frames, frame j being input frame 2j |
| ControlLabelSplit.Odds | PyASL/pyasl/modules/preclinical_control_label_split.py:20-25 | `1::2` keeps n/2 frames, frame j being input frame 2j+1 |
| ControlLabelSplit.EvensOddsPartition | PyASL/pyasl/modules/preclinical_control_label_split.py:20-25 | every input frame lands in exactly one of the two series, at index i/2 |
| ControlLabelSplit.Broadcast | PyASL/pyasl/modules/preclinical_control_label_split.py:27 | the subtraction broadcasts exactly when the lengths agree or one of them is 1 |
| ControlLabelSplit.DiffSumAntisymmetric | PyASL/pyasl/modules/preclinical_control_label_split.py:27 | swapping control and label negates the summed difference |
| ControlLabelSplit.MeanDiff | PyASL/pyasl/modules/preclinical_control_label_split.py:27 | non-broadcastable series raise ValueError; a result has one value per voxel and comes from a non-empty broadcast |
| ControlLabelSplit.Split | PyASL/pyasl/modules/preclinical_control_label_split.py:18-25 | control_first takes control from the even frames and label from the odd ones, and the reverse otherwise |
| ControlLabelSplit.SplitStep | PyASL/pyasl/modules/preclinical_control_label_split.py:16-27 | only ImageCtr, ImageLab and ImageDif are written, every other entry is kept; success leaves a 3-D ImageDif |
| ControlLabelSplit.SplitStepStores | PyASL/pyasl/modules/preclinical_control_label_split.py:16-27 | for a 5D image and any number of repetitions, ImageCtr and ImageLab hold the control and label series of the configured order whatever happens next, ImageDif is written exactly when their mean difference exists and then holds it, and otherwise the mean's error is the step's |
| ControlLabelSplit.ControlFirstDefault | PyASL/pyasl/modules/preclinical_control_label_split.py:18-27 | by default, for an even number of frames, the difference image is the mean over the pairs of even minus odd frame |
| ControlLabelSplit.EvenSplit | PyASL/pyasl/modules/preclinical_control_label_split.py:16-27 | for either order and an even number of frames, the step stores the two series and their mean difference |
| ControlLabelSplit.ControlLastNegates | PyASL/pyasl/modules/preclinical_control_label_split.py:18-27 | control_first false swaps the series and negates the difference image |
| ControlLabelSplit.OddCountBroadcasts | PyASL/pyasl/modules/preclinical_control_label_split.py:20-27 | three frames give one label against two controls, which broadcasts and succeeds |
| ControlLabelSplit.FiveRepetitionsRaise | PyASL/pyasl/modules/preclinical_control_label_split.py:26-27 | five frames raise ValueError in the mean, after ImageCtr and ImageLab were stored |
| ControlLabelSplit.Run | PyASL/pyasl/modules/preclinical_control_label_split.py:16-27 | the context and the raised error are those of SplitStep |
| SlicePldAdjust.Interleaved | PyASL/pyasl/modules/preclinical_slice_pld_adjust.py:23-25 | `arange(2m).reshape(2, -1).T.ravel()` alternates the first and second half: position j holds j/2 when j is even and m + j/2 when odd |
| SlicePldAdjust.AdjList | PyASL/pyasl/modules/preclinical_slice_pld_adjust.py:22-25 | the acquisition-rank list has one entry per slice, for odd and even slice counts |
| SlicePldAdjust.AdjListAt | PyASL/pyasl/modules/preclinical_slice_pld_adjust.py:22-25 | slice j has rank j/2 when even and (Z+1)/2 + j/2 when odd (the padding entry dropped for odd Z) |
| SlicePldAdjust.AdjListPermutation | PyASL/pyasl/modules/preclinical_slice_pld_adjust.py:22-25 | the ranks are a permutation of 0..Z-1: in range, pairwise distinct, and every rank is taken by some slice |
| SlicePldAdjust.Factors | PyASL/pyasl/modules/preclinical_slice_pld_adjust.py:26-27 | one factor per slice, exp(SGap * rank / T1blood) |
| SlicePldAdjust.FirstSliceUnscaled | PyASL/pyasl/modules/preclinical_slice_pld_adjust.py:26-27 | slice 0 is acquired first and gets factor 1 |
| SlicePldAdjust.LaterSlicesScaledMore | PyASL/pyasl/modules/preclinical_slice_pld_adjust.py:26-27 | with positive gap and T1, a slice acquired later gets a strictly larger factor |
| SlicePldAdjust.ScaledVolume | PyASL/pyasl/modules/preclinical_slice_pld_adjust.py:32-33 | scaling the first slices of a volume keeps its length |
| SlicePldAdjust.Scaled | PyASL/pyasl/modules/preclinical_slice_pld_adjust.py:32-33 | scaling applies to any array and keeps its dimension and shape |
| SlicePldAdjust.DefaultSlices | PyASL/pyasl/modules/preclinical_slice_pld_adjust.py:17 | the default slice count exists exactly when ImageDif is present and is an array |
| SlicePldAdjust.Prepare | PyASL/pyasl/modules/preclinical_slice_pld_adjust.py:16-31 | a scaling plan has Z > 1, one factor per slice, and targets relCBF when present, ImageDif otherwise |
| SlicePldAdjust.SliceStep | PyASL/pyasl/modules/preclinical_slice_pld_adjust.py:14-37 | the key set is unchanged and every entry but the target is kept |
| SlicePldAdjust.SingleSliceUntouched | PyASL/pyasl/modules/preclinical_slice_pld_adjust.py:18-19 | Z <= 1 returns without changing anything |
| SlicePldAdjust.DefaultScaling | PyASL/pyasl/modules/preclinical_slice_pld_adjust.py:17-37 | with empty Para and default parameters, voxel i of the target is multiplied by exp(31 * rank / 2800) of its slice |
| SlicePldAdjust.DefaultPlan | PyASL/pyasl/modules/preclinical_slice_pld_adjust.py:17-31 | with empty Para the slice count is ImageDif's third dimension and the defaults SGap 31, T1blood 2800 are used |
| SlicePldAdjust.PlanScalesAll | PyASL/pyasl/modules/preclinical_slice_pld_adjust.py:28-37 | a plan writes the target back with all Z slices scaled |
| SlicePldAdjust.ScaleSlices | PyASL/pyasl/modules/preclinical_slice_pld_adjust.py:32-33 | the loop over z scales the slices one at a time and ends at the specification Scaled |
| SlicePldAdjust.ScaleOne | PyASL/pyasl/modules/preclinical_slice_pld_adjust.py:33 | `arr[:, :, z] = AdjF[z] * arr[:, :, z]` multiplies exactly the voxels of slice z |
| SlicePldAdjust.ScaledVolumeStep | PyASL/pyasl/modules/preclinical_slice_pld_adjust.py:32-33 | one more loop iteration is one more ScaleOne |
| SlicePldAdjust.ScaledNothing | PyASL/pyasl/modules/preclinical_slice_pld_adjust.py:32 | before the loop the array is unchanged |
| SlicePldAdjust.ScaledStep | PyASL/pyasl/modules/preclinical_slice_pld_adjust.py:32-33 | one loop iteration scales slice z of each frame, for 3-, 4- and 5-D arrays |
| SlicePldAdjust.Run | PyASL/pyasl/modules/preclinical_slice_pld_adjust.py:14-37 | the context and the raised error are those of SliceStep |
| Plotting.VoxelIndexInRange | PyASL/pyasl/utils/plotting.py:13 | a voxel (x, y, z) of an X by Y by Z slice stack has its C-order index inside the data |
| Plotting.TileBelowGrid | PyASL/pyasl/utils/plotting.py:7-12 | every cell of the winf[0]*X by winf[1]*Y target lies in a tile numbered below winf[0]*winf[1] |
| Plotting.TileCell | PyASL/pyasl/utils/plotting.py:9-12 | slice ni goes to tile (ni div winf[1], ni mod winf[1]), and the cell of its voxel (x, y) is exactly the cell of that tile at offset (x, y) |
| Plotting.TileCellFrom | PyASL/pyasl/utils/plotting.py:9-12 | every cell is at its tile's origin plus its offset within the tile |
| Plotting.TileCellOf | PyASL/pyasl/utils/plotting.py:9-12 | the cell written for voxel (x, y) of slice ni lies in tile ni at offset (x, y) |
| Plotting.CellInTarget | PyASL/pyasl/utils/plotting.py:11-12 | a tile inside the grid writes only inside the target |
| Plotting.GetPlotArray | PyASL/pyasl/utils/plotting.py:5-14 | raises exactly when winf[1] is 0 with slices to place, or a slice falls past the grid with tiles of two or more rows; otherwise the target has size winf[0]*X by winf[1]*Y and each cell holds the voxel of the slice placed in its tile, or 0 |
| Plotting.PastGridUnchanged | PyASL/pyasl/utils/plotting.py:11-13 | a slice past the last tile row (possible only when X is 1) writes no cell of the target |
| Plotting.FillTile | PyASL/pyasl/utils/plotting.py:11-13 | writing slice ni completes tile ni and leaves every other cell as it was |
| Plotting.SliceInItsTile | PyASL/pyasl/utils/plotting.py:9-13 | the cell written for voxel (x, y) of slice ni is inside the target and the finished mosaic holds that voxel there |
| Plotting.MosaicAt | PyASL/pyasl/utils/plotting.py:11-13 | a cell of tile ni at offset (x, y) holds voxel (x, y) of slice ni |
| Common.Setting | PyASL/pyasl/modules/mricloud_calculate_CBF.py:26-28 | a parameter given is used as it is, an absent one takes its default |
| Common.Clip | PyASL/pyasl/modules/mricloud_calculate_CBF.py:91 | `np.clip(x, 0, 200)` lies within the bounds and leaves values inside them alone |
| Common.Trunc | PyASL/pyasl/modules/preclinical_steady_state_trim.py:14 | `int(x)` of a float drops the fraction toward zero: |r| <= |x| < |r| + 1, with the sign of x |
| Common.ParseDecimal | PyASL/pyasl/modules/preclinical_slice_pld_adjust.py:20-21 | `float(s)` of a string succeeds exactly on a decimal literal |
| Common.ParseInt | PyASL/pyasl/modules/preclinical_steady_state_trim.py:14 | `int(s)` of a string succeeds exactly on an optional minus sign followed by a non-empty run of digits |
| Common.MaskedMean | PyASL/pyasl/modules/mricloud_calculate_CBF.py:79 | `np.mean(x[mask])` has no value (NaN) exactly when the mask selects nothing |
| Common.FirstNonZero | PyASL/pyasl/modules/mricloud_calculate_CBF.py:48-50 | the PLD taken from the non-zero PLDs is absent exactly when there is none, and is otherwise the first of them |
| Common.PldIsAnyNonZero | PyASL/pyasl/modules/mricloud_calculate_CBF.py:48-50 | when all non-zero PLDs are equal (so the set has one element), the PLD taken is that value |
| PipelineContext.Truth | PyASL/pyasl/modules/preclinical_control_label_split.py:18 | `bool(v)`: an array raises, a string is true when non-empty, None is false |
| PipelineContext.ToInt | PyASL/pyasl/modules/preclinical_steady_state_trim.py:14 | `int(v)`: a float is truncated, a string must be an integer literal, None, lists and dicts raise TypeError |
| PipelineContext.ToFloat | PyASL/pyasl/modules/preclinical_slice_pld_adjust.py:20-21 | `float(v)`: a number is itself, a string must be a decimal literal, None, lists and dicts raise TypeError |
| PipelineContext.Param | PyASL/pyasl/modules/preclinical_steady_state_trim.py:14 | `p.get(key, default)` |
| PipelineContext.Context.constructor | PyASL/pyasl/pipelines/custom_pipeline.py:235 | a new context holds the entries it is given |
| PipelineContext.Context.Get | PyASL/pyasl/pipelines/custom_pipeline.py:109 | `ctx.get(key)` has a value exactly for keys present, and it is the stored one |
| PipelineContext.Context.GetRequired | PyASL/pyasl/pipelines/custom_pipeline.py:30-34 | a present key returns its value; an absent one raises KeyError naming it |
| PipelineContext.Context.Set | PyASL/pyasl/pipelines/custom_pipeline.py:263 | item assignment replaces one entry and nothing else |
| PipelineContext.Context.SetDefault | PyASL/pyasl/pipelines/custom_pipeline.py:236-237 | `setdefault` adds the key only when absent and otherwise changes nothing |
| CustomPipeline.NormKey | PyASL/pyasl/pipelines/custom_pipeline.py:55-57 | the normal form is no longer than the name and is lower-case alphanumeric |
| CustomPipeline.NormKeyOfKey | PyASL/pyasl/pipelines/custom_pipeline.py:55-57 | a name already lower-case alphanumeric is its own normal form |
| CustomPipeline.NormKeyIdempotent | PyASL/pyasl/pipelines/custom_pipeline.py:55-57 | normalising twice is normalising once |
| CustomPipeline.NormKeyAppend | PyASL/pyasl/pipelines/custom_pipeline.py:55-57 | normalisation works character by character: it distributes over concatenation |
| CustomPipeline.NormKeyDropsSeparator | PyASL/pyasl/pipelines/custom_pipeline.py:55-57 | a non-alphanumeric separator (space, '_', '-') does not change the key |
| CustomPipeline.NormKeyIgnoresCase | PyASL/pyasl/pipelines/custom_pipeline.py:55-57 | names equal up to case have the same key |
| CustomPipeline.PlainWordNotPath | PyASL/pyasl/pipelines/custom_pipeline.py:67-69 | a string without '/', '\\' or '.' does not look like a path |
| CustomPipeline.NiftiNameIsPath | PyASL/pyasl/pipelines/custom_pipeline.py:67-69 | any name ending in .nii or .nii.gz looks like a path |
| CustomPipeline.ResolvePaths | PyASL/pyasl/pipelines/custom_pipeline.py:80-97 | dictionaries keep their keys, lists their length, strings stay strings, other values are returned as they are |
| CustomPipeline.ResolvedString | PyASL/pyasl/pipelines/custom_pipeline.py:91-96 | a string changes only when its key is a path key or it looks like a path; when it is one of those, a successful resolution replaces it with the resolved path |
| CustomPipeline.ResolveFailuresKeep | PyASL/pyasl/pipelines/custom_pipeline.py:93-96 | when every resolution raises, the whole structure comes back unchanged |
| CustomPipeline.ResolvePathsIdempotent | PyASL/pyasl/pipelines/custom_pipeline.py:80-97 | when resolving a resolved path gives it back, resolving the parameters twice is resolving them once |
| CustomPipeline.InjectFromMeta | PyASL/pyasl/pipelines/custom_pipeline.py:100-110 | dictionaries keep their keys, lists their length, and every value other than the token is returned unchanged |
| CustomPipeline.InjectUnderKey | PyASL/pyasl/pipelines/custom_pipeline.py:105-109 | a `from_meta` value under key k becomes the context's value for k, and stays the token when k is not in the context |
| CustomPipeline.InjectListUnderKey | PyASL/pyasl/pipelines/custom_pipeline.py:106-109 | a token inside a list inherits the list's key as its parent |
| CustomPipeline.InjectTopLevelToken | PyASL/pyasl/pipelines/custom_pipeline.py:108-110 | a token with no parent key is left as it is |
| CustomPipeline.InjectWithoutToken | PyASL/pyasl/pipelines/custom_pipeline.py:100-110 | parameters without a token are unchanged |
| CustomPipeline.InjectEmptyContext | PyASL/pyasl/pipelines/custom_pipeline.py:100-110 | with an empty context nothing is replaced |
| CustomPipeline.ClassesInModules | PyASL/pyasl/pipelines/custom_pipeline.py:114-155 | every class of the modelled package is in one of its modules |
| CustomPipeline.PreclinicalAlias | PyASL/pyasl/pipelines/custom_pipeline.py:115-127 | every preclinical alias names a class the package defines |
| CustomPipeline.MriCloudAliasAsWritten | PyASL/pyasl/pipelines/custom_pipeline.py:129-138 | the table as written has entries for MRICloudCalculateCBF and MRICloudCalculateDiffMap |
| CustomPipeline.MriCloudAlias | PyASL/pyasl/pipelines/custom_pipeline.py:129-138 | corrected MRICloud table: every entry names a defined class, and only the two broken entries differ from the table as written |
| CustomPipeline.OtherAlias | PyASL/pyasl/pipelines/custom_pipeline.py:140-154 | every DLASL, ASLtbx and oxford alias names a class the package defines |
| CustomPipeline.Alias | PyASL/pyasl/pipelines/custom_pipeline.py:114-155 | corrected alias table: every entry names a defined class, and it agrees with the table as written except for the two MRICloud entries |
| CustomPipeline.Import | PyASL/pyasl/pipelines/custom_pipeline.py:176 | `getattr(importlib.import_module(mod), cls)` succeeds exactly when the module exists and defines the class |
| CustomPipeline.MriCloudAsWrittenMissing | PyASL/pyasl/pipelines/custom_pipeline.py:130-131 | the two entries as written name modules (`mricloud_calculate_cbf`, `mricloud_calculate_diff_map`) that the package does not have |
| CustomPipeline.ImportOf | PyASL/pyasl/pipelines/custom_pipeline.py:176 | in the installed package, a defined class imports and a missing module raises ImportError |
| CustomPipeline.ImportFrom | PyASL/pyasl/pipelines/custom_pipeline.py:176 | an import succeeds for the classes the environment has, and raises for package modules it lacks |
| CustomPipeline.AliasImports | PyASL/pyasl/pipelines/custom_pipeline.py:172-177 | every entry of the corrected table imports |
| CustomPipeline.AsWrittenOthersImport | PyASL/pyasl/pipelines/custom_pipeline.py:172-177 | every entry of the table as written other than the two MRICloud ones imports |
| CustomPipeline.LastDot | PyASL/pyasl/pipelines/custom_pipeline.py:51 | `rsplit('.', 1)` splits at the last dot |
| CustomPipeline.ResolveImpl | PyASL/pyasl/pipelines/custom_pipeline.py:158-177 | an unknown short name raises ValueError; a dotted name is imported as module + '.' + class with the kwargs style and no root; a short name resolves to its table entry; a result always names an importable class |
| CustomPipeline.ResolveSpellings | PyASL/pyasl/pipelines/custom_pipeline.py:171-177 | two spellings with the same key resolve alike |
| CustomPipeline.AliasResolves | PyASL/pyasl/pipelines/custom_pipeline.py:171-177 | a short name in the corrected table resolves to its entry |
| CustomPipeline.MriCloudAsWrittenRaises | PyASL/pyasl/pipelines/custom_pipeline.py:130-131 | as written, the MRICloudCalculateCBF and MRICloudCalculateDiffMap steps raise ImportError |
| CustomPipeline.MriCloudCorrected | PyASL/pyasl/pipelines/custom_pipeline.py:130-131 | with the corrected table, those two steps resolve to the package's `mricloud_calculate_CBF` and `mricloud_calculate_diffmap` modules |
| CustomPipeline.StepName | PyASL/pyasl/pipelines/custom_pipeline.py:248-250 | the name is taken from module, name or class; a step without one raises ValueError naming its number; a non-mapping step raises AttributeError |
| CustomPipeline.RawParams | PyASL/pyasl/pipelines/custom_pipeline.py:252 | missing or falsy params become `{}`, truthy ones are used as they are |
| CustomPipeline.CallParams | PyASL/pyasl/pipelines/custom_pipeline.py:262-276 | kwargs steps need a mapping, keep every parameter and add `root` only when needed and absent; dict steps get the mapping without `root` |
| CustomPipeline.StepOutcome | PyASL/pyasl/pipelines/custom_pipeline.py:247-278 | a nameless step raises before anything else; an unresolvable name raises its error unchanged; a dict-style step leaves the context unchanged |
| CustomPipeline.NamelessStepRaises | PyASL/pyasl/pipelines/custom_pipeline.py:248-250 | a step with no module, name or class raises ValueError and changes nothing |
| CustomPipeline.UnknownStepRaises | PyASL/pyasl/pipelines/custom_pipeline.py:172-174 | an unknown short name raises ValueError and changes nothing |
| CustomPipeline.InjectEmptyContextDict | PyASL/pyasl/pipelines/custom_pipeline.py:252-257 | a step without params gets `{}` |
| CustomPipeline.BareStepRuns | PyASL/pyasl/pipelines/custom_pipeline.py:247-278 | a step with only a known name runs its class with no parameters, or only `root` when it needs one |
| CustomPipeline.PreclinicalLookup | PyASL/pyasl/pipelines/custom_pipeline.py:116-118 | `SteadyStateTrim` and `BrukerLoader` look up their modules, the loader needing the root |
| CustomPipeline.TrimStepRuns | PyASL/pyasl/pipelines/custom_pipeline.py:259-271 | a `SteadyStateTrim` step (any spelling) runs the trim with its defaults on the context |
| CustomPipeline.LoaderGetsRoot | PyASL/pyasl/pipelines/custom_pipeline.py:262-263 | a `BrukerLoader` step without params receives the data root |
| CustomPipeline.ExecuteStep | PyASL/pyasl/pipelines/custom_pipeline.py:247-278 | one iteration of the loop leaves the context and error that StepOutcome gives |
| CustomPipeline.LoadSteps | PyASL/pyasl/pipelines/custom_pipeline.py:227-230 | the steps are the non-empty `steps` list; a missing, empty, non-list or falsy configuration raises ValueError |
| CustomPipeline.InitialEntries | PyASL/pyasl/pipelines/custom_pipeline.py:235-237 | the context keeps its entries and gains `root` and `config_dir` only when absent |
| CustomPipeline.RunLoopAppend | PyASL/pyasl/pipelines/custom_pipeline.py:247-278 | running a + b runs a, then b from a's context, unless a raised |
| CustomPipeline.RunLoopHead | PyASL/pyasl/pipelines/custom_pipeline.py:247-278 | step k is numbered k + 1 and runs on the context of the steps before it |
| CustomPipeline.RunLoopRaises | PyASL/pyasl/pipelines/custom_pipeline.py:247-278 | the first step that raises ends the pipeline with its error |
| CustomPipeline.PipelineNeedsSteps | PyASL/pyasl/pipelines/custom_pipeline.py:228-230 | a configuration without steps raises ValueError |
| CustomPipeline.NamelessStepAborts | PyASL/pyasl/pipelines/custom_pipeline.py:247-250 | a nameless step j after successful steps ends the run with the error for step j + 1 |
| CustomPipeline.ExecuteSteps | PyASL/pyasl/pipelines/custom_pipeline.py:247-278 | the loop over the steps ends in the context and error that RunSteps gives |
| CustomPipeline.RunCustomPipeline | PyASL/pyasl/pipelines/custom_pipeline.py:189-282 | run_custom_pipeline returns a fresh context holding the entries of Pipeline, or raises its error |
| BrukerIo.Dollars | PyASL/pyasl/utils/bruker_io.py:13-18 | `\$*` after '##' takes the maximal run of '$' |
| BrukerIo.SizeRunEnd | PyASL/pyasl/utils/bruker_io.py:13-14 | `[\ \d\.]+` takes the maximal run of spaces, digits and dots |
| BrukerIo.SizeClose | PyASL/pyasl/utils/bruker_io.py:13-14 | a size group `( ... )` found after '=' closes with ')' at least three characters on |
| BrukerIo.LastFit | PyASL/pyasl/utils/bruker_io.py:13-18 | the greedy `(.+)=` settles on the last '=' at which the rest of the pattern matches, and there is none after it |
| BrukerIo.HeaderAt | PyASL/pyasl/utils/bruker_io.py:12-28 | a header line with one '=' is ParVal, ParVec, ParVecVal or EmptyPar by what follows the '=': a value, a size group alone, a size group and more, or nothing |
| BrukerIo.ClassifyParVal | PyASL/pyasl/utils/bruker_io.py:15 | `##$NAME=value` (with one optional space) is a ParVal of the name and the value |
| BrukerIo.ClassifyVector | PyASL/pyasl/utils/bruker_io.py:13-14 | `##$NAME=( sizes )` is a ParVec, and with text after the size group a ParVecVal carrying that text |
| BrukerIo.ClassifyEmptyPar | PyASL/pyasl/utils/bruker_io.py:18 | `##$NAME=` with nothing after it is an EmptyPar |
| BrukerIo.ParValReassembles | PyASL/pyasl/utils/bruker_io.py:15 | a ParVal line is '##', some '$', the name, '=', at most one space and the value: classification loses nothing else |
| BrukerIo.GreedyName | PyASL/pyasl/utils/bruker_io.py:13-15 | the greedy name group takes everything up to the last '=' that leaves a value (`##A=b=c` names `A=b`), and falls back to an earlier one otherwise |
| BrukerIo.ContinuationLine | PyASL/pyasl/utils/bruker_io.py:16 | a line not starting with '$' or '#' is a continuation, the empty line included |
| BrukerIo.StampLine | PyASL/pyasl/utils/bruker_io.py:17 | a `$$` line is a stamp of the rest of the line |
| BrukerIo.Extend | PyASL/pyasl/utils/bruker_io.py:47 | `+=` appends to a string, and extends a list character by character (also line 52) |
| BrukerIo.Step | PyASL/pyasl/utils/bruker_io.py:32-52 | one pass of the accumulation loop keeps the last parameter name a key of the dictionary |
| BrukerIo.Fold | PyASL/pyasl/utils/bruker_io.py:32-52 | the same holds after any number of rows |
| BrukerIo.FoldAppend | PyASL/pyasl/utils/bruker_io.py:32 | the accumulation over two blocks of lines is the accumulation of the second from where the first ended |
| BrukerIo.StepKeys | PyASL/pyasl/utils/bruker_io.py:33-52 | a row adds exactly the parameter it declares (and `Stamp` for a stamp) and makes a declared name the last one |
| BrukerIo.FoldKeys | PyASL/pyasl/utils/bruker_io.py:30-52 | the keys are the names declared, plus `Stamp` when a stamp line occurs; a last name exists exactly when a name was declared, and is one of them |
| BrukerIo.ValueContinues | PyASL/pyasl/utils/bruker_io.py:42-47 | a ParVal followed by continuation lines stores the value and the lines joined by single spaces (also lines 33-35) |
| BrukerIo.ContinueString | PyASL/pyasl/utils/bruker_io.py:46-47 | a continuation line appends ' ' and its text to the last string value |
| BrukerIo.ContinueStamp | PyASL/pyasl/utils/bruker_io.py:51-52 | a further stamp appends ' ## ' and its text |
| BrukerIo.VectorValues | PyASL/pyasl/utils/bruker_io.py:42-47 | a ParVec followed by value lines stores those lines joined by spaces (the first replaces the empty list) (also lines 36-38) |
| BrukerIo.StampsJoin | PyASL/pyasl/utils/bruker_io.py:48-52 | the stamps of a file are joined with ' ## ' |
| BrukerIo.WordLen | PyASL/pyasl/utils/bruker_io.py:60 | the first word of a string ends at the first whitespace character |
| BrukerIo.BeforeNewline | PyASL/pyasl/utils/bruker_io.py:57-59 | `$` also matches before one final newline |
| BrukerIo.Values | PyASL/pyasl/utils/bruker_io.py:60 | `map(float, ...)` gives the value of each word, in order |
| BrukerIo.WordsOfJoin | PyASL/pyasl/utils/bruker_io.py:60 | `split()` of decimals joined by spaces gives the decimals back |
| BrukerIo.NumberList | PyASL/pyasl/utils/bruker_io.py:59-60 | two or more decimals joined by spaces convert to the list of their values |
| BrukerIo.JoinIsList | PyASL/pyasl/utils/bruker_io.py:57-59 | such a string matches the list pattern and not the single-number pattern |
| BrukerIo.ConvertList | PyASL/pyasl/utils/bruker_io.py:59-60 | a string matching only the list pattern becomes the floats of its words |
| BrukerIo.SpacedNotDecimal | PyASL/pyasl/utils/bruker_io.py:57 | a string with a space never matches the single-number pattern |
| BrukerIo.OneNumber | PyASL/pyasl/utils/bruker_io.py:57-58 | a decimal, with or without a final newline, converts to its value |
| BrukerIo.KeptAsIs | PyASL/pyasl/utils/bruker_io.py:55-60 | lists, and strings matching neither pattern, are returned unchanged |
| BrukerIo.Parse | PyASL/pyasl/utils/bruker_io.py:30-61 | the returned dictionary has exactly the keys accumulated |
| BrukerIo.Rows | PyASL/pyasl/utils/bruker_io.py:22-28 | one classified row per line, in order |
| BrukerIo.ExampleRow0 | PyASL/pyasl/utils/bruker_io.py:15 | `##$NR=1` is a ParVal of NR and 1 |
| BrukerIo.ExampleRow1 | PyASL/pyasl/utils/bruker_io.py:14 | `##$PVM_Matrix=( 2 )` is a ParVec |
| BrukerIo.ExampleRow2 | PyASL/pyasl/utils/bruker_io.py:16 | `64 64` is a continuation line |
| BrukerIo.ExampleRow3 | PyASL/pyasl/utils/bruker_io.py:17 | `$$ made by hand` is a stamp |
| BrukerIo.ExampleFold | PyASL/pyasl/utils/bruker_io.py:30-52 | those four rows leave NR, PVM_Matrix (its values from the next line) and Stamp |
| BrukerIo.ReadNmrPar | PyASL/pyasl/utils/bruker_io.py:4-61 | a file that cannot be opened raises naming the file; otherwise the loops return Parse of its lines |
| DataImport.ZeroCount | PyASL/pyasl/data_import.py:357 | `list.count(0)` counts at most every element |
| DataImport.NonZeroItems | PyASL/pyasl/data_import.py:284-289 | the PLDs kept by `if x != 0` are the list minus its zeros: what remains is non-zero and from the list |
| DataImport.MissingAt | PyASL/pyasl/data_import.py:171-173 | the loop over the required keys stops at the first key absent, all before it being present |
| DataImport.MissingNoneIff | PyASL/pyasl/data_import.py:171-173 | no key is reported missing exactly when all required keys are present |
| DataImport.In | PyASL/pyasl/data_import.py:171-173 | `key in x` finds a key of an object, an item of a list or a substring of a string, and raises TypeError exactly on a number, a bool or null |
| DataImport.MissingIn | PyASL/pyasl/data_import.py:171-173 | the required-key loop on any section: on an object it reports what `MissingAt` finds; a reported key is one `in` does not find; nothing is reported exactly when `in` finds every key; a number, bool or null raises TypeError |
| DataImport.AslKeysOneByOne | PyASL/pyasl/data_import.py:156-173 | the twelve ASL keys are checked one by one |
| DataImport.AslProblemNoneIff | PyASL/pyasl/data_import.py:175-231 | the ASL section raises no complaint exactly when the type-specific keys, SliceDuration for 2D, the PLD shape for single/multi delay and included M0, the zero PLD of an included M0 and the background-suppression keys are all acceptable |
| DataImport.ReadParamsUsing | PyASL/pyasl/data_import.py:135-191 | a file that cannot be opened, read or decoded gives `(False, message, {})`; a document that is not an object raises TypeError and one without ASL raises KeyError; an ASL number, bool or null raises TypeError, and an ASL list or string is either rejected with `{}` or raises |
| DataImport.AslListSearched | PyASL/pyasl/data_import.py:155-173 | an ASL section `["x"]` is rejected with `Missing parameter: Manufacturer` and no exception; a list of every required key passes the loop and raises when indexed by name; a number raises |
| DataImport.ReadParamsAcceptsExactly | PyASL/pyasl/data_import.py:135-267 | read_params accepts exactly a loaded object with an ASL object that passes every ASL check and the anat and M0 sections it needs; an accepted result has no message and the parameters, with `anat` and `M0` set to `{}` when not checked; a rejection has a message and `{}` |
| DataImport.AslProblemMessage | PyASL/pyasl/data_import.py:171-231 | every rejection of the ASL section carries a message |
| DataImport.SectionsAcceptExactly | PyASL/pyasl/data_import.py:233-267 | the anat and M0 checks accept exactly when the sections needed have all six keys, and fill in `{}` otherwise |
| DataImport.MissingAslKeyReported | PyASL/pyasl/data_import.py:171-173 | the first missing ASL key is reported as `Missing parameter: <key>` |
| DataImport.LabelingDurationIgnored | PyASL/pyasl/data_import.py:175-191 | as written, a PCASL parameter file is judged the same with or without LabelingDuration |
| DataImport.AslProblemIgnoresDuration | PyASL/pyasl/data_import.py:175-231 | the ASL checks as written never look at LabelingDuration |
| DataImport.AslProblemIgnores | PyASL/pyasl/data_import.py:175-231 | the ASL checks depend only on the required, background-suppression and SliceDuration keys |
| DataImport.MissingAtIgnores | PyASL/pyasl/data_import.py:171-173 | removing a key that is not required does not change which key is reported |
| DataImport.SectionsIgnoreAsl | PyASL/pyasl/data_import.py:233-267 | the anat and M0 checks do not depend on the ASL section |
| DataImport.LabelingDurationReported | PyASL/pyasl/data_import.py:175-191 | with the key check applied to PCASL/CASL too, a missing LabelingDuration is reported |
| DataImport.AcceptedIsSidecarReady | PyASL/pyasl/data_import.py:267-278 | an accepted parameter set has what make_sidecar reads: ASL, anat and M0 objects and the ASL keys |
| DataImport.VolumeTypesCounts | PyASL/pyasl/data_import.py:291-300 | each zero PLD gives one m0scan and each other PLD one label and one control, so there are 2n - zeros volumes |
| DataImport.PairTypesAlternate | PyASL/pyasl/data_import.py:302-308 | without a PLD list the volumes alternate label/control (or control/label), num_volumes/2 pairs |
| DataImport.BuildVolumeTypes | PyASL/pyasl/data_import.py:280-308 | the volume-type loop builds VolumeTypes for a PLD list and PairTypes otherwise |
| DataImport.MakeSidecar | PyASL/pyasl/data_import.py:270-310 | make_sidecar raises IndexError exactly for a single-delay list with no non-zero PLD; the anat and M0 sidecars are copies; an included M0 is embedded; the PLD becomes the first non-zero value (single delay) or the non-zero list; every other ASL field is copied; the volume types are as above |
| DataImport.VolumeCountIsContextLength | PyASL/pyasl/data_import.py:354-362 | the volume-count check accepts exactly the count of volume types make_sidecar produces |
| DataImport.LabelValuesInOrder | PyASL/pyasl/data_import.py:460-468 | the PLD list is 0 for non-label volumes and the next non-zero PLD for each label volume, raising IndexError when there are more labels than PLDs |
| DataImport.ScalarPldList | PyASL/pyasl/data_import.py:469-476 | with a single PLD value, every label volume gets it and the others 0 |
| DataImport.RoleCountPrefix | PyASL/pyasl/data_import.py:463-466 | the labels before a position are at most all the labels |
| DataImport.FillPldList | PyASL/pyasl/data_import.py:462-468 | the PLD-list loop over a PLD array computes LabelValues |
| DataImport.BuildPldList | PyASL/pyasl/data_import.py:460-476 | the PLD-list loop computes the specified list for both PLD forms |
| DataImport.SidecarPldListFits | PyASL/pyasl/data_import.py:460-468 | for volume types built from a PLD list, the PLD list never runs out of values |
| DataImport.ConvertRaisesOnlyOnAllZeroPlds | PyASL/pyasl/data_import.py:313-481 | convert2bids raises only when make_sidecar does: the sessions pass, the data is single-delay and every PLD is zero |
| DataImport.SessionsMatchContext | PyASL/pyasl/data_import.py:354-362 | after the session checks, every session has as many volumes as there are volume types |
| DataImport.LabelControlIsFirst | PyASL/pyasl/data_import.py:533-539 | LabelControl is decided by the first label or control volume, and is absent when there is none |
| DataImport.SingleDelayIffOneValue | PyASL/pyasl/data_import.py:541-548 | a PLD list is single-delay exactly when it has exactly one distinct value |
| DataImport.SidecarLabelControl | PyASL/pyasl/data_import.py:291-300 | the volume types written for a PLD list with a non-zero PLD read back as the LabelControl they were written with (also lines 533-539) |
| DataImport.LabelControlPrefix | PyASL/pyasl/data_import.py:533-539 | LabelControl is settled by a prefix that contains a label or control |
| DataImport.OnlyM0Scans | PyASL/pyasl/data_import.py:291-293 | a PLD list of zeros gives only m0scan volumes |
| DataImport.MultiDelayRoundTrip | PyASL/pyasl/data_import.py:270-310 | reading back a multi-delay sidecar gives the LabelControl written and the PLD list convert2bids wrote (also lines 460-468, 533-557) |
| DataImport.ConstantValues | PyASL/pyasl/data_import.py:549-566 | when all PLDs are equal, indexing them per label gives the same list as repeating the one value |
| DataImport.SingleDelayRoundTrip | PyASL/pyasl/data_import.py:270-310 | reading back a single-delay sidecar whose non-zero PLDs are equal gives SingleDelay and the PLD list convert2bids wrote (also lines 460-476, 541-566) |
| MricloudHelpers.FlipFactorBounds | PyASL/pyasl/utils/mricloud_helpers.py:112-115 | ff is 2*inv_eff - 1 for a pulse within 1e-6 of pi and 1 otherwise; it lies in [-1, 1] for an efficiency in [0, 1], and is 1 for a perfect inversion |
| MricloudHelpers.RecoveryStep | PyASL/pyasl/utils/mricloud_helpers.py:111-118 | one interval fails (the `[-1]` of an empty slot range) exactly when it has no slot, ceil(gap) < 1 |
| MricloudHelpers.MricloudBgsFactor | PyASL/pyasl/utils/mricloud_helpers.py:106-120 | the loop computes mz after every interval, and with at most one flip entry returns mz0 unchanged |
| MricloudHelpers.BgsAfterErrorSticks | PyASL/pyasl/utils/mricloud_helpers.py:110-118 | once an interval fails, the result is that failure |
| MricloudHelpers.RecoveryStepBounded | PyASL/pyasl/utils/mricloud_helpers.py:117-118 | with |cos| <= 1 and 0 < exp <= 1 below zero, one interval keeps mz in [-1, 1] |
| MricloudHelpers.BgsAfterBounded | PyASL/pyasl/utils/mricloud_helpers.py:109-118 | the background-suppression factor of an mz0 in [-1, 1] stays in [-1, 1] |
| MricloudHelpers.BgsWithoutPulses | PyASL/pyasl/utils/mricloud_helpers.py:111-118 | with flip [0, 0] and timing [0, total] (no suppression) the factor is 1 - (1 - mz0) exp(-ceil(total)/T1) |
| MricloudHelpers.Insert | PyASL/pyasl/utils/mricloud_helpers.py:127 | inserting into the sorted distinct values keeps them strictly increasing with the right elements |
| MricloudHelpers.Unique | PyASL/pyasl/utils/mricloud_helpers.py:127 | `np.unique` is strictly increasing and holds exactly the input's values |
| MricloudHelpers.SumGapsTelescopes | PyASL/pyasl/utils/mricloud_helpers.py:128 | the consecutive gaps of the unique values sum to the span |
| MricloudHelpers.TiInterval | PyASL/pyasl/utils/mricloud_helpers.py:127-128 | the mean readout spacing exists exactly when there are two distinct times, and is then positive |
| MricloudHelpers.MeanGapPositive | PyASL/pyasl/utils/mricloud_helpers.py:128 | the mean gap of a strictly increasing sequence is positive |
| MricloudHelpers.TiIntervalIsSpan | PyASL/pyasl/utils/mricloud_helpers.py:127-128 | the mean spacing is (max - min) / (distinct count - 1), and all times lie within [min, max] |
| MricloudHelpers.MultiDelayRecovery | PyASL/pyasl/utils/mricloud_helpers.py:141 | the multi-delay curve has one value per delay |
| MricloudHelpers.LookLockerRecovery | PyASL/pyasl/utils/mricloud_helpers.py:125-137 | the Look-Locker curve has one value per delay |
| MricloudHelpers.FuncRecover | PyASL/pyasl/utils/mricloud_helpers.py:122-143 | with flip and m_init the Look-Locker model, with neither the multi-delay model; with only one of them `mm` is unbound and the call raises |
| MricloudHelpers.MultiDelayRecoveryShape | PyASL/pyasl/utils/mricloud_helpers.py:141 | for positive T1 and m0 the multi-delay curve is 0 at delay 0 and within [0, m0) |
| MricloudHelpers.PhaseMembers | PyASL/pyasl/utils/mricloud_helpers.py:183-185 | each phase holds only delays satisfying its bounds (also lines 225-227) |
| MricloudHelpers.PhasesPartition | PyASL/pyasl/utils/mricloud_helpers.py:183-185 | for ordered cut points the three phases have as many delays as the input and together are a permutation of it (also lines 225-227) |
| MricloudHelpers.PhasesMultiset | PyASL/pyasl/utils/mricloud_helpers.py:183-185 | the three phases together are a permutation of the delays (also lines 225-227) |
| MricloudHelpers.PhasesKeepSortedOrder | PyASL/pyasl/utils/mricloud_helpers.py:194 | for sorted delays the concatenated phases are the input itself (also line 240) |
| MricloudHelpers.PhasesReorderUnsorted | PyASL/pyasl/utils/mricloud_helpers.py:194 | for unsorted delays ([2, 0]) the concatenated phases come out reordered ([0, 2]) (also line 240) |
| MricloudHelpers.PhasesOverlapWhenReversed | PyASL/pyasl/utils/mricloud_helpers.py:183-185 | with a negative duration the phases overlap and the output is longer than the input |
| MricloudHelpers.PhaseValuesShape | PyASL/pyasl/utils/mricloud_helpers.py:187-194 | the output has one value per delay of each phase, and the first-phase values are zeros |
| MricloudHelpers.PhaseValuesPointwise | PyASL/pyasl/utils/mricloud_helpers.py:225-240 | for sorted delays output i is the model's value of the phase delay i falls in (also lines 183-194) |
| MricloudHelpers.PcaslCurves | PyASL/pyasl/utils/mricloud_helpers.py:175-192 | the PCASL curves are defined for a non-zero T1 |
| MricloudHelpers.GkmPcaslProperties | PyASL/pyasl/utils/mricloud_helpers.py:172-196 | with casl_dur >= 0 the output is as long as plds; the w1 values are zeros; cbf = 0 makes the output all zeros |
| MricloudHelpers.PcaslZeroScale | PyASL/pyasl/utils/mricloud_helpers.py:181 | cbf = 0 makes the scale constant 0 |
| MricloudHelpers.PhaseValuesZero | PyASL/pyasl/utils/mricloud_helpers.py:187-194 | a zero scale gives zeros in every phase |
| MricloudHelpers.GkmPcaslSorted | PyASL/pyasl/utils/mricloud_helpers.py:183-194 | for sorted plds output i is the value of pld i in its phase |
| MricloudHelpers.GkmPaslProperties | PyASL/pyasl/utils/mricloud_helpers.py:199-242 | with pasl_dur >= 0 the output is as long as tis, and TIs before att give zeros |
| MricloudHelpers.PaslOutputShape | PyASL/pyasl/utils/mricloud_helpers.py:225-240 | the PASL output has one value per TI of each phase, with zeros first |
| MricloudHelpers.GkmPaslSorted | PyASL/pyasl/utils/mricloud_helpers.py:225-240 | for sorted TIs output i is the value of TI i in its phase |
| RoiLists.StripShape | PyASL/pyasl/utils/mricloud_helpers.py:251 | `strip()` removes exactly the leading and trailing whitespace: the rest is a slice starting and ending in a non-space (also line 258) |
| RoiLists.StripLeftShape | PyASL/pyasl/utils/mricloud_helpers.py:251 | the left strip drops exactly a whitespace prefix (also line 258) |
| RoiLists.StripRightShape | PyASL/pyasl/utils/mricloud_helpers.py:251 | the right strip drops exactly a whitespace suffix (also line 258) |
| RoiLists.SplitRunsShape | PyASL/pyasl/utils/mricloud_helpers.py:251 | `re.split` on a run class: the first piece is the text before the first separator, there is more than one piece exactly when a separator occurs, and no piece holds a separator (also line 258) |
| RoiLists.NonEmpty | PyASL/pyasl/utils/mricloud_helpers.py:148 | the pieces `split()` keeps are non-empty |
| RoiLists.PySplit | PyASL/pyasl/utils/mricloud_helpers.py:148 | `str.split()` gives the non-empty runs between whitespace |
| RoiLists.ReadLookupTable | PyASL/pyasl/utils/mricloud_helpers.py:145-149 | the title line is skipped and every other line becomes its whitespace-split row |
| RoiLists.NameToken | PyASL/pyasl/utils/mricloud_helpers.py:258-260 | a line yields at most one name, its second token |
| RoiLists.ImgEnd | PyASL/pyasl/utils/mricloud_helpers.py:256 | the `.img` run ends past the file or at a line without `.img` |
| RoiLists.ImgEndCovers | PyASL/pyasl/utils/mricloud_helpers.py:256-261 | every line inside the run matches `.img` |
| RoiLists.ImgNames | PyASL/pyasl/utils/mricloud_helpers.py:258-260 | at most one name per line of the run |
| RoiLists.Block | PyASL/pyasl/utils/mricloud_helpers.py:253-262 | a block carries its header as type and no more names than counted lines |
| RoiLists.TypesScan | PyASL/pyasl/utils/mricloud_helpers.py:252-262 | the line position never moves back |
| RoiLists.BlocksWellFormed | PyASL/pyasl/utils/mricloud_helpers.py:252-262 | every block found for a header has that header, which is one of the requested types |
| RoiLists.RoiListsWellFormed | PyASL/pyasl/utils/mricloud_helpers.py:244-264 | every block the reader returns has a requested type and at most one name per counted line |
| RoiLists.ReadRoiListsInfoAsWritten | PyASL/pyasl/utils/mricloud_helpers.py:244-264 | as written the module lacks `import re`: the reader returns only for an empty file and otherwise raises NameError (also lines 1-8) |
| RoiLists.AsWrittenLosesBlock | PyASL/pyasl/utils/mricloud_helpers.py:250-262 | a file with one ROI header raises as written, while the intended reader returns its block (also lines 1-8) |
| RoiLists.ReadBlock | PyASL/pyasl/utils/mricloud_helpers.py:254-262 | after a matched header two lines are skipped, then the `.img` lines are counted and their names collected |
| RoiLists.ScanTypes | PyASL/pyasl/utils/mricloud_helpers.py:252-262 | the loop over the ROI types computes TypesScan |
| RoiLists.MricloudReadRoiListsInfo | PyASL/pyasl/utils/mricloud_helpers.py:244-264 | the while loop computes the intended reader, ReadRoiListsInfo |
| RoiLists.NamedBlockCounts | PyASL/pyasl/utils/mricloud_helpers.py:256-261 | when every `.img` line has a second token, the count equals the number of names |
| RoiAverage.SegAt | PyASL/pyasl/modules/mricloud_t1roi_CBFaverage.py:90-95 | the segment a label ends in is at most the segment count |
| RoiAverage.MatchBeforeMeans | PyASL/pyasl/modules/mricloud_t1roi_CBFaverage.py:91-95 | a segment claims a label exactly when some earlier-or-equal lookup row with that label number has the segment's name in the level column |
| RoiAverage.SegAtMeans | PyASL/pyasl/modules/mricloud_t1roi_CBFaverage.py:90-95 | the last matching segment wins: the chosen segment matches the label and no later one does |
| RoiAverage.SegAtNone | PyASL/pyasl/modules/mricloud_t1roi_CBFaverage.py:90-95 | a label no segment matches keeps the zero of `np.zeros_like` (also line 88) |
| RoiAverage.Segmask | PyASL/pyasl/modules/mricloud_t1roi_CBFaverage.py:88-95 | the segment mask has one entry per voxel |
| RoiAverage.AnyWideGrows | PyASL/pyasl/modules/mricloud_t1roi_CBFaverage.py:91-94 | once a lookup row reaching the level column has been seen it stays seen |
| RoiAverage.BuildSegmask | PyASL/pyasl/modules/mricloud_t1roi_CBFaverage.py:88-95 | the nested loops compute Segmask, and with more segments than names they raise exactly when some row reaches the level column |
| RoiAverage.Selection | PyASL/pyasl/modules/mricloud_t1roi_CBFaverage.py:113 | a voxel is selected exactly when it is in segment s and the calculation mask exceeds 0.5 |
| RoiAverage.Row | PyASL/pyasl/modules/mricloud_t1roi_CBFaverage.py:113-120 | a row reports the selected-voxel count and the masked means of aCBF and rCBF, which are missing exactly when no voxel is selected |
| RoiAverage.LevelTable | PyASL/pyasl/modules/mricloud_t1roi_CBFaverage.py:84-121 | a level table fails exactly when the count exceeds the names; otherwise it has one row per segment, each the Row of that segment's selection |
| RoiAverage.FullTable | PyASL/pyasl/modules/mricloud_t1roi_CBFaverage.py:123-134 | the per-label table fails exactly when a lookup row has no name column; otherwise row ii reports the voxels labelled ii+1 |
| RoiAverage.LabelSelection | PyASL/pyasl/modules/mricloud_t1roi_CBFaverage.py:127 | a voxel is selected exactly when its label is lab and the calculation mask exceeds 0.5 |
| RoiAverage.RoiCbfAverageShape | PyASL/pyasl/modules/mricloud_t1roi_CBFaverage.py:84-134 | fewer than three list entries, or five or more, raise; with three, the result is the L2 table, the L3 table and the per-label table with their counts (also lines 57-58) |
| RoiAverage.LevelsFailPastColumns | PyASL/pyasl/modules/mricloud_t1roi_CBFaverage.py:84-85 | with five or more entries the level loop runs past the three lookup columns and raises |
| RoiAverage.ReplacedEntryMatchesNothing | PyASL/pyasl/modules/mricloud_t1roi_CBFaverage.py:84-95 | if the level loop reached entry 2, whose names are now lookup rows rather than strings, no label would match (also lines 57-58) |
| RoiAverage.CountsWithinMask | PyASL/pyasl/modules/mricloud_t1roi_CBFaverage.py:113-116 | the segment voxel counts together never exceed the voxels of the calculation mask |
| RoiAverage.InMask | PyASL/pyasl/modules/mricloud_t1roi_CBFaverage.py:113 | a voxel is in the calculation mask exactly when its value exceeds 0.5 |
| RoiAverage.SegCountsEmpty | PyASL/pyasl/modules/mricloud_t1roi_CBFaverage.py:116 | no voxels, no counts |
| RoiAverage.SegCountsSnoc | PyASL/pyasl/modules/mricloud_t1roi_CBFaverage.py:116 | the counts of a longer image add the last voxel to its segment |
| CalculateCbf.PldMs | PyASL/pyasl/modules/mricloud_calculate_CBF.py:48-50 | the delay is a non-zero PLD in milliseconds and is missing (IndexError) exactly when every PLD is zero |
| CalculateCbf.SliceStep | PyASL/pyasl/modules/mricloud_calculate_CBF.py:51-54 | 3D acquisitions add no per-slice delay; 2D ones add SliceDuration in ms, or raise KeyError when it is absent |
| CalculateCbf.SliceDelays | PyASL/pyasl/modules/mricloud_calculate_CBF.py:45-76 | slice kk's delay is the PLD (plus the bolus cut-off delay for PASL), constant in 3D and growing by SliceDuration per slice in 2D, starting one slice early at kk = 0 |
| CalculateCbf.KineticsDivisors | PyASL/pyasl/modules/mricloud_calculate_CBF.py:55-76 | PCASL and PASL get a non-zero divisor; other labelling types leave tmpcbf at zero |
| CalculateCbf.TmpCbf | PyASL/pyasl/modules/mricloud_calculate_CBF.py:42-76 | the kinetic-corrected map has the shape of the difference map |
| CalculateCbf.TmpCbfZeros | PyASL/pyasl/modules/mricloud_calculate_CBF.py:42-76 | a zero difference voxel, or a labelling type that is neither PCASL nor PASL, gives zero; a failure needs a slice and a missing field |
| CalculateCbf.FillTmpCbf | PyASL/pyasl/modules/mricloud_calculate_CBF.py:42-76 | the slice loop computes TmpCbf |
| CalculateCbf.FillSlices | PyASL/pyasl/modules/mricloud_calculate_CBF.py:45-76 | each voxel is its difference value times its slice's kinetic factor |
| CalculateCbf.Alpha | PyASL/pyasl/modules/mricloud_calculate_CBF.py:84-87 | alpha is the labelling efficiency, times bgs_eff to the pulse count under background suppression, which raises when the pulse count is absent |
| CalculateCbf.PowUnitInterval | PyASL/pyasl/modules/mricloud_calculate_CBF.py:85 | a power of a number in [0, 1] stays in [0, 1] and decreases with the exponent |
| CalculateCbf.AlphaBounds | PyASL/pyasl/modules/mricloud_calculate_CBF.py:84-87 | alpha lies between 0 and the labelling efficiency and drops with every extra pulse |
| CalculateCbf.FixM0 | PyASL/pyasl/modules/mricloud_calculate_CBF.py:79 | voxels with abs(M0) < 1e-6 take the mean of M0 in the calculation mask; others are kept; the mean of an empty mask fails |
| CalculateCbf.FixM0ClearsNearZero | PyASL/pyasl/modules/mricloud_calculate_CBF.py:79 | when the masked mean is not itself near zero, no near-zero M0 voxel is left |
| CalculateCbf.AcbfVoxel | PyASL/pyasl/modules/mricloud_calculate_CBF.py:90-91 | a voxel's aCBF is clipped into [0, 200] and is zero outside the display mask or where tmpcbf is zero |
| CalculateCbf.MaskedSumScale | PyASL/pyasl/modules/mricloud_calculate_CBF.py:92-93 | dividing every voxel by g divides the masked sum by g |
| CalculateCbf.Relative | PyASL/pyasl/modules/mricloud_calculate_CBF.py:92-93 | rCBF times the global mean is aCBF, and exists exactly when the masked mean exists and is non-zero |
| CalculateCbf.RelativeMeanIsOne | PyASL/pyasl/modules/mricloud_calculate_CBF.py:92-93 | the masked mean of rCBF is 1 |
| CalculateCbf.Quantify | PyASL/pyasl/modules/mricloud_calculate_CBF.py:79-93 | quantification succeeds exactly when M0 is fixed, alpha is non-zero and no M0 voxel is zero; aCBF is AcbfVoxel per voxel, in [0, 200], and rCBF is Relative |
| CalculateCbf.CbfProperties | PyASL/pyasl/modules/mricloud_calculate_CBF.py:26-93 | the whole computation gives aCBF in [0, 200], zero outside the display mask, and an rCBF whose masked mean is 1 |
| CalculateCbf.CbfErrors | PyASL/pyasl/modules/mricloud_calculate_CBF.py:45-87 | a missing kinetic field raises first; otherwise background suppression without a pulse count raises KeyError |
| CalculateCbf.CalculateCbf | PyASL/pyasl/modules/mricloud_calculate_CBF.py:26-93 | the module's run computes Cbf |
| CalculateM0.M0SourceOf | PyASL/pyasl/modules/mricloud_calculate_M0.py:47-49 | M0 is estimated from the control images exactly when M0Type is "Estimate"; otherwise a named M0 series is used when there is one, the m0scan frames of the ASL series when not (also line 97) |
| CalculateM0.SeparateM0 | PyASL/pyasl/modules/mricloud_calculate_M0.py:51-55 | a 3-D M0 image is used as is; a 4-D one is averaged over its frames, voxel by voxel, and an empty series fails |
| CalculateM0.MeanOfEqualFrames | PyASL/pyasl/modules/mricloud_calculate_M0.py:53 | summing k identical frames gives k times the frame |
| CalculateM0.RoleCountStep | PyASL/pyasl/modules/mricloud_calculate_M0.py:70-73 | counting m0scan entries one more position adds one exactly when that entry is an m0scan |
| CalculateM0.IncludedM0 | PyASL/pyasl/modules/mricloud_calculate_M0.py:66-74 | the ASLContext loop raises IndexError exactly when an m0scan position lies past the last frame, fails on a zero m0scan count, and otherwise gives the voxel-wise mean of the m0scan frames |
| CalculateM0.ProvidedM0Map | PyASL/pyasl/modules/mricloud_calculate_M0.py:84-95 | with matching shapes the co-registered M0 is kept inside the display mask and zeroed outside; otherwise the display mask is filled with the mean M0 over the M0 image's own calculation mask, which must be non-empty |
| CalculateM0.Spread | PyASL/pyasl/modules/mricloud_calculate_M0.py:95 | the display mask times a scalar: g inside, 0 outside (also line 145) |
| CalculateM0.TotalDuration | PyASL/pyasl/modules/mricloud_calculate_M0.py:101-114 | the total duration is LabelingDuration (PCASL) or BolusCutOffDelayTime (PASL) plus the first non-zero PLD, in ms; a missing field raises KeyError, no non-zero PLD raises IndexError, and other types leave it unset |
| CalculateM0.SliceTrain | PyASL/pyasl/modules/mricloud_calculate_M0.py:116-139 | the pulse train of one slice, or the error raised first in evaluation order: without background suppression an unbound `totdur` (NameError) before a missing SliceDuration; with it a missing or empty BackgroundSuppressionPulseTime before a missing SliceDuration; succeeds exactly when none of these is missing |
| CalculateM0.UnboundTotdurFirst | PyASL/pyasl/modules/mricloud_calculate_M0.py:100-123 | for a labeling type other than PCASL and PASL without background suppression, the estimate raises the NameError for the unbound `totdur` at the first slice |
| CalculateM0.TrainWithoutBgs | PyASL/pyasl/modules/mricloud_calculate_M0.py:117-123 | without background suppression the pulse train is a single saturation at time 0 read out at totdur (plus the slice shift in 2D), with no inversion |
| CalculateM0.TrainWithBgs | PyASL/pyasl/modules/mricloud_calculate_M0.py:124-139 | with background suppression the train starts at 0, places an inversion (flip pi) at each pulse time but the last, and reads out at the last pulse time (plus the slice shift in 2D) with efficiency bgs_eff |
| CalculateM0.SaturationRecoveryWithoutBgs | PyASL/pyasl/modules/mricloud_calculate_M0.py:117-123 | without background suppression the slice factor is plain saturation recovery, 1 - exp(-t/T1), at the ceiled readout time t |
| CalculateM0.SliceFactors | PyASL/pyasl/modules/mricloud_calculate_M0.py:116-141 | the per-slice factors are the slice factors of slices 0..k-1 in order |
| CalculateM0.SliceFactorsStop | PyASL/pyasl/modules/mricloud_calculate_M0.py:116-141 | the first slice whose factor fails makes the whole loop fail with its error |
| CalculateM0.M0Tmp | PyASL/pyasl/modules/mricloud_calculate_M0.py:141 | each voxel is its control value divided by its slice's factor, undefined where the factor is zero |
| CalculateM0.GlobalM0 | PyASL/pyasl/modules/mricloud_calculate_M0.py:144 | the global M0 is the mean over the calculation mask, and exists exactly when the mask is non-empty and every voxel in it is defined |
| CalculateM0.Values | PyASL/pyasl/modules/mricloud_calculate_M0.py:141-144 | the defined voxels keep their values |
| CalculateM0.EstimatedM0IsGlobal | PyASL/pyasl/modules/mricloud_calculate_M0.py:97-145 | the estimated M0 map is the global mean of control/factor over the calculation mask, spread over the display mask |
| CalculateM0.EstimateM0 | PyASL/pyasl/modules/mricloud_calculate_M0.py:97-145 | the slice loop computes EstimatedM0 |
| Diffmap.InputFile | PyASL/pyasl/modules/mricloud_calculate_diffmap.py:35-38 | single-delay data is read from the realigned `r` copy, multi-delay data from the raw file |
| Diffmap.OutputFiles | PyASL/pyasl/modules/mricloud_calculate_diffmap.py:69-71 | the three output names all start with `r` and the ASL file's stem, are pairwise distinct, and differ from the series read in either the single-delay or the multi-delay branch, so no output overwrites the input or another output |
| Diffmap.RoleCountPrefix | PyASL/pyasl/modules/mricloud_calculate_diffmap.py:45-48 | counting labels one more position adds one exactly when that entry is a label |
| Diffmap.CalculateDiffmap | PyASL/pyasl/modules/mricloud_calculate_diffmap.py:41-54 | the ASLContext loop raises IndexError exactly when a control or label position lies past the last frame, fails on zero labels, and otherwise gives control and label sums each divided by the label count, and their difference |
| Diffmap.OtherRolesIgnored | PyASL/pyasl/modules/mricloud_calculate_diffmap.py:45-50 | a role's sum depends only on the frames that carry that role |
| Diffmap.M0FramesIgnored | PyASL/pyasl/modules/mricloud_calculate_diffmap.py:45-50 | changing m0scan (or other) frames changes neither average |
| Diffmap.CtrlDividesByLabelCount | PyASL/pyasl/modules/mricloud_calculate_diffmap.py:48 | the control sum is divided by the number of labels, not of controls: two unit controls and one label average to 2 (also line 52) |
| MultidelayCbfAtt.Diff | PyASL/pyasl/modules/mricloud_multidelay_calculate_CBFATT.py:74-76 | `ctrl - labl` on the stacked series broadcasts a single frame and otherwise needs equal frame counts, raising when neither holds |
| MultidelayCbfAtt.DiffFrame | PyASL/pyasl/modules/mricloud_multidelay_calculate_CBFATT.py:76 | each difference frame has the voxel count of the image |
| MultidelayCbfAtt.DiffPairsFrames | PyASL/pyasl/modules/mricloud_multidelay_calculate_CBFATT.py:74-76 | with equal counts, frame j is control j minus label j, voxel by voxel |
| MultidelayCbfAtt.NDiffRow | PyASL/pyasl/modules/mricloud_multidelay_calculate_CBFATT.py:79-86 | outside the display mask the row is zero; inside it is the difference divided by M0, which is undefined when M0 is zero |
| MultidelayCbfAtt.Plds | PyASL/pyasl/modules/mricloud_multidelay_calculate_CBFATT.py:88-93 | one PLD per label entry, raising when a label position lies past the PLD list |
| MultidelayCbfAtt.PldsOfLabels | PyASL/pyasl/modules/mricloud_multidelay_calculate_CBFATT.py:89-92 | PLD j is the PLDList entry at the position of the j-th label |
| MultidelayCbfAtt.SliceOffset | PyASL/pyasl/modules/mricloud_multidelay_calculate_CBFATT.py:146-153 | the slice offset needs SliceDuration exactly for 2D acquisitions (also lines 115-118) |
| MultidelayCbfAtt.XData | PyASL/pyasl/modules/mricloud_multidelay_calculate_CBFATT.py:144-153 | the fit abscissae, one per PLD, fail exactly when PASL lacks BolusCutOffDelayTime or a 2D acquisition lacks SliceDuration (also lines 113-118) |
| MultidelayCbfAtt.XDataTimes | PyASL/pyasl/modules/mricloud_multidelay_calculate_CBFATT.py:146-153 | each abscissa is the PLD plus the bolus cut-off delay (PASL) plus (slice - 1) times SliceDuration (2D) (also lines 115-118) |
| MultidelayCbfAtt.Kinetics | PyASL/pyasl/modules/mricloud_multidelay_calculate_CBFATT.py:131-139 | PCASL fits the multi-delay PCASL model with LabelingDuration, PASL the Look-Locker PASL model with BolusCutOffDelayTime and Looklocker; a missing field raises (also lines 105-108) |
| MultidelayCbfAtt.VoxelFit | PyASL/pyasl/modules/mricloud_multidelay_calculate_CBFATT.py:109-129 | a fitter that keeps its bounds gives CBF in [0, 200] and ATT in [0.1, 3.0] s (also lines 140-159) |
| MultidelayCbfAtt.FitMaps | PyASL/pyasl/modules/mricloud_multidelay_calculate_CBFATT.py:113-159 | the fitted maps have one entry per voxel (also lines 101-102) |
| MultidelayCbfAtt.FitMapsVoxels | PyASL/pyasl/modules/mricloud_multidelay_calculate_CBFATT.py:113-159 | voxels outside the display mask stay zero; inside, CBF is the fit's first parameter and ATT its second in ms; the first failing fit in voxel order is the error, and the maps exist when every fit succeeds (also lines 101-102) |
| MultidelayCbfAtt.FitMapsErrStays | PyASL/pyasl/modules/mricloud_multidelay_calculate_CBFATT.py:113-159 | once a voxel fit fails, later voxels do not change the error |
| MultidelayCbfAtt.CbfAtt | PyASL/pyasl/modules/mricloud_multidelay_calculate_CBFATT.py:49-163 | the module's outputs are a CBF and an ATT map of the image's size and the relative CBF map |
| MultidelayCbfAtt.CbfAttStackErrors | PyASL/pyasl/modules/mricloud_multidelay_calculate_CBFATT.py:66-75 | a role position past the last frame raises IndexError; no label or no control frame makes `np.stack` raise ValueError |
| MultidelayCbfAtt.CbfAttMapProperties | PyASL/pyasl/modules/mricloud_multidelay_calculate_CBFATT.py:101-159 | CBF and ATT are zero outside the display mask; inside, a bound-keeping fitter gives CBF in [0, 200] and ATT in [100, 3000] ms; labelling types other than PCASL and PASL leave both maps zero |
| MultidelayCbfAtt.StackByRole | PyASL/pyasl/modules/mricloud_multidelay_calculate_CBFATT.py:66-75 | the ASLContext loop collects the control and the label frames in order, raising IndexError exactly when a position lies past the last frame |
| MultidelayCbfAtt.LabelPlds | PyASL/pyasl/modules/mricloud_multidelay_calculate_CBFATT.py:88-93 | the PLD loop computes Plds |
| MultidelayCbfAtt.FitVoxels | PyASL/pyasl/modules/mricloud_multidelay_calculate_CBFATT.py:113-159 | the voxel loop computes FitMaps |
| MultidelayCbfAtt.MultidelayCalculateCbfAtt | PyASL/pyasl/modules/mricloud_multidelay_calculate_CBFATT.py:49-163 | the module's run computes CbfAtt |
| AsltbxQuantify.FieldConstantsOf | PyASL/pyasl/modules/asltbx_perfusion_quantify.py:136-149 | 1.5 T gives blood T1 1200 ms, 3 T gives 1664 ms and the only T2 of CSF (74.9 ms), any other field 1810 ms; all relaxation constants are positive |
| AsltbxQuantify.Resolve | PyASL/pyasl/modules/asltbx_perfusion_quantify.py:50-58 | absent options default to QuantFlag 1, MaskFlag on, SubtractionType 0, subtraction order 1 and time shift 0.5 |
| AsltbxQuantify.BloodM0 | PyASL/pyasl/modules/asltbx_perfusion_quantify.py:153-175 | QuantFlag 0 uses no blood M0; otherwise a missing or zero M0wmcsf raises ValueError, QuantFlag 1 scales the CSF value by Rcsf and the T2 decay (NameError off 3 T, where T2csf is unset), other flags scale the WM value by Rwm |
| AsltbxQuantify.BloodM0Positive | PyASL/pyasl/modules/asltbx_perfusion_quantify.py:159-170 | a positive WM/CSF reference gives a positive blood M0 |
| AsltbxQuantify.QuantM0 | PyASL/pyasl/modules/asltbx_perfusion_quantify.py:172-196 | a voxel-wise M0 is loaded only for QuantFlag 0 with M0Type other than Estimate; an M0Type that is neither Separate nor Included leaves M0 unbound (NameError); a loaded M0 must match the image size (also lines 203-207) |
| AsltbxQuantify.Window | PyASL/pyasl/modules/asltbx_perfusion_quantify.py:244-253 | the sinc window has six control positions, p plus the offsets for the pair order, clamped into [0, perfno-1] |
| AsltbxQuantify.ClampWindow | PyASL/pyasl/modules/asltbx_perfusion_quantify.py:251-252 | in place, every index below zero becomes 0 and every index above hi becomes hi |
| AsltbxQuantify.WindowIndices | PyASL/pyasl/modules/asltbx_perfusion_quantify.py:244-253 | the array-based clamping computes Window |
| AsltbxQuantify.ControlPositions | PyASL/pyasl/modules/asltbx_perfusion_quantify.py:234-253 | simple subtraction uses control p; surround subtraction adds the previous (label first) or next (control first) control when there is one; sinc subtraction uses the clamped window |
| AsltbxQuantify.ControlFrames | PyASL/pyasl/modules/asltbx_perfusion_quantify.py:235-255 | the control frames are the frames at the control indices of those positions, raising exactly when a position or index is out of range |
| AsltbxQuantify.SincWeights | PyASL/pyasl/modules/asltbx_perfusion_quantify.py:89-95 | six sinc weights, one per window position |
| AsltbxQuantify.SumScale | PyASL/pyasl/modules/asltbx_perfusion_quantify.py:95 | dividing each weight by g divides their sum by g |
| AsltbxQuantify.SincWeightsNearOne | PyASL/pyasl/modules/asltbx_perfusion_quantify.py:93-95 | after the optional renormalisation the weights sum to within 0.1 of 1 |
| AsltbxQuantify.Half | PyASL/pyasl/modules/asltbx_perfusion_quantify.py:240 | averaging two images halves their sum voxel by voxel (also lines 243, 280) |
| AsltbxQuantify.Brain | PyASL/pyasl/modules/asltbx_perfusion_quantify.py:209 | a voxel is in the brain index exactly when its mask value is non-zero |
| AsltbxQuantify.Selected | PyASL/pyasl/modules/asltbx_perfusion_quantify.py:211-214 | with MaskFlag the brain voxels are quantified, otherwise every voxel with mask value above -1 |
| AsltbxQuantify.ControlImage | PyASL/pyasl/modules/asltbx_perfusion_quantify.py:234-260 | the control image has the voxel count of the mask |
| AsltbxQuantify.MaskValues | PyASL/pyasl/modules/asltbx_perfusion_quantify.py:266-267 | the mask used for pair p has the voxel count of the mask (also line 382) |
| AsltbxQuantify.BinaryMaskKept | PyASL/pyasl/modules/asltbx_perfusion_quantify.py:382 | converting an already binary mask to bool changes nothing |
| AsltbxQuantify.PerfImage | PyASL/pyasl/modules/asltbx_perfusion_quantify.py:262-267 | the perfusion image has the voxel count of the images |
| AsltbxQuantify.PerfImageProperties | PyASL/pyasl/modules/asltbx_perfusion_quantify.py:262-267 | perfusion is control minus label (label minus control for order 0), times the mask under MaskFlag; the two orders are opposite |
| AsltbxQuantify.CbfMap | PyASL/pyasl/modules/asltbx_perfusion_quantify.py:284-375 | the CBF image has the voxel count of the mask |
| AsltbxQuantify.CbfImage | PyASL/pyasl/modules/asltbx_perfusion_quantify.py:284-375 | the CBF image of a pair has the voxel count of the mask |
| AsltbxQuantify.CbfMapTruncates | PyASL/pyasl/modules/asltbx_perfusion_quantify.py:289-291 | CBF is written into an integer array: every voxel is an integer, zero where the signal is not effective, elsewhere the model value truncated toward zero (also lines 340-342, 373-375) |
| AsltbxQuantify.CleanedMask | PyASL/pyasl/modules/asltbx_perfusion_quantify.py:380-383 | a voxel is kept exactly when it is in the mask and its CBF lies in [-40, 150] |
| AsltbxQuantify.MaskedSumBounds | PyASL/pyasl/modules/asltbx_perfusion_quantify.py:388-391 | a masked sum of values in [lo, hi] lies between count*lo and count*hi |
| AsltbxQuantify.GlobalsProperties | PyASL/pyasl/modules/asltbx_perfusion_quantify.py:380-391 | the outlier-cleaned global CBF lies in [-40, 150]; the whole-brain means exist exactly when the mask is non-empty, and the perfusion and CBF means exist together |
| AsltbxQuantify.PairFrom | PyASL/pyasl/modules/asltbx_perfusion_quantify.py:231-391 | a pair's CBF and perfusion images have the mask's voxel count and its globals are Globals of them |
| AsltbxQuantify.PerfSubtractSetupErrors | PyASL/pyasl/modules/asltbx_perfusion_quantify.py:151-158 | no non-zero PLD raises IndexError, a missing LabelingEfficiency raises KeyError, and quantification against a missing or zero M0wmcsf raises ValueError, in that order (also line 134) |
| AsltbxQuantify.RunOf | PyASL/pyasl/modules/asltbx_perfusion_quantify.py:216-224 | the label indices are the positions of the labels in ASLContext |
| AsltbxQuantify.PerfSubtractIsPairs | PyASL/pyasl/modules/asltbx_perfusion_quantify.py:101-391 | once set up, the subtraction is the loop over the label pairs |
| AsltbxQuantify.PerfSubtractOnePerLabel | PyASL/pyasl/modules/asltbx_perfusion_quantify.py:224-231 | one result per label frame |
| AsltbxQuantify.PerfSubtractPairs | PyASL/pyasl/modules/asltbx_perfusion_quantify.py:231-391 | the pair loop computes Pairs |
| AsltbxQuantify.AsltbxPerfSubtract | PyASL/pyasl/modules/asltbx_perfusion_quantify.py:101-391 | the module's run computes PerfSubtract (also lines 50-71) |
| OxfordAslSplit.Or | PyASL/pyasl/modules/oxford_asl_split_m0.py:69 | Python `a or b`: a when it is truthy, b otherwise |
| OxfordAslSplit.FileContext | PyASL/pyasl/modules/oxford_asl_split_m0.py:66-69 | the context file's ASLContext when truthy, else its AslContext; a file that is not a JSON object fails |
| OxfordAslSplit.ContextPriority | PyASL/pyasl/modules/oxford_asl_split_m0.py:61-69 | a truthy ASLContext in the description wins, then params' asl_context, and only then is the context file read (params' asl_context_json, default base/perf/aslcontext.json) |
| OxfordAslSplit.HasM0Scan | PyASL/pyasl/modules/oxford_asl_split_m0.py:71 | a list has an m0scan exactly when one of its items is "m0scan"; a string never does; a value that cannot be iterated raises |
| OxfordAslSplit.ContextTags | PyASL/pyasl/modules/oxford_asl_split_m0.py:88-89 | `enumerate(asl_context)` walks a list's items, a string's one-character strings, or an object's keys in the given insertion order |
| OxfordAslSplit.ObjectContextTags | PyASL/pyasl/modules/oxford_asl_split_m0.py:71-89 | for an object context listed by its keys, the m0scan test agrees with the enumerated tags, which are m0scan exactly at the "m0scan" key |
| OxfordAslSplit.ObjectContextSplit | PyASL/pyasl/modules/oxford_asl_split_m0.py:88-94 | the object context {"control": …, "m0scan": …} splits a two-frame series into ASL frame 0 and the M0 volume frame 1 |

| OxfordAslSplit.Tagged | PyASL/pyasl/modules/oxford_asl_split_m0.py:88-89 | the index lists hold positions of the context, at most one per entry |
| OxfordAslSplit.TaggedMembers | PyASL/pyasl/modules/oxford_asl_split_m0.py:88-89 | a position is listed exactly when its entry is (or is not) "m0scan" |
| OxfordAslSplit.TaggedIncreasing | PyASL/pyasl/modules/oxford_asl_split_m0.py:88-89 | the positions are listed in increasing order |
| OxfordAslSplit.TaggedCount | PyASL/pyasl/modules/oxford_asl_split_m0.py:88-89 | the two index lists together have one position per context entry |
| OxfordAslSplit.TaggedPartition | PyASL/pyasl/modules/oxford_asl_split_m0.py:88-89 | the ASL and M0 index lists partition the positions of the context, each in increasing order |
| OxfordAslSplit.TakeFrames | PyASL/pyasl/modules/oxford_asl_split_m0.py:91-92 | `data[..., idx]` picks the frames at the listed positions and raises exactly when one is past the last frame |
| OxfordAslSplit.Squeezed | PyASL/pyasl/modules/oxford_asl_split_m0.py:93-94 | a single M0 frame is squeezed to a volume; more (or none) stay a series |
| OxfordAslSplit.SeparateM0 | PyASL/pyasl/modules/oxford_asl_split_m0.py:73-76 | the pass-through M0 path is one that exists |
| OxfordAslSplit.Run | PyASL/pyasl/modules/oxford_asl_split_m0.py:15-20 | a missing, malformed or empty Images entry raises before anything else (also line 54) |
| OxfordAslSplit.SplitSeriesPartition | PyASL/pyasl/modules/oxford_asl_split_m0.py:87-94 | splitting succeeds exactly when the series has a frame per context entry; the ASL output holds the non-m0scan frames and the M0 output the m0scan frames, in order, squeezed when single, and together they account for every entry |
| OxfordAslSplit.PassThrough | PyASL/pyasl/modules/oxford_asl_split_m0.py:71-79 | without an m0scan the input ASL and the existing separate M0 are returned unchanged and nothing is written; without a truthy M0 entry it raises ValueError |
| OxfordAslSplit.SplitWrites | PyASL/pyasl/modules/oxford_asl_split_m0.py:81-100 | when files are written the context has an m0scan, and exactly two images are written: the split of the series by the tags the context enumerates (list items or object keys), the ASL frames at the ASL path and the M0 part at the M0 path |
| OxfordAslRun.PldsSeq | PyASL/pyasl/modules/oxford_asl_run.py:52-62 | the non-zero PLDs: none when PLDList is absent, exactly the non-zero entries of a list, one one-character string per character of a string, and TypeError for a number, a bool or null |
| OxfordAslRun.NonZeroKeepsAll | PyASL/pyasl/modules/oxford_asl_run.py:62 | no non-zero PLD is dropped |
| OxfordAslRun.DropRuns | PyASL/pyasl/modules/oxford_asl_run.py:79-82 | the first loop keeps the first value and only input values, never more than it was given |
| OxfordAslRun.KeepDistinct | PyASL/pyasl/modules/oxford_asl_run.py:83-86 | the second loop keeps the first value and only its inputs, and no two kept values are within tol |
| OxfordAslRun.CollapseSeparated | PyASL/pyasl/modules/oxford_asl_run.py:64-87 | `_collapse_equal` returns input values, starting with the first, none empty unless the input is, pairwise more than tol apart |
| OxfordAslRun.DropRunsEmbeds | PyASL/pyasl/modules/oxford_asl_run.py:79-82 | the first loop keeps its values in input order (a subsequence) |
| OxfordAslRun.KeepDistinctEmbeds | PyASL/pyasl/modules/oxford_asl_run.py:83-86 | the second loop keeps its values in order (a subsequence) |
| OxfordAslRun.CollapseKeepsOrder | PyASL/pyasl/modules/oxford_asl_run.py:64-87 | the result is a subsequence of the input |
| OxfordAslRun.DropRunsCovers | PyASL/pyasl/modules/oxford_asl_run.py:79-82 | every input is within tol of a value the first loop kept |
| OxfordAslRun.KeepDistinctCovers | PyASL/pyasl/modules/oxford_asl_run.py:83-86 | every value of the first loop is within tol of a value the second loop kept |
| OxfordAslRun.CollapseCovers | PyASL/pyasl/modules/oxford_asl_run.py:64-87 | every input is within 2*tol of some returned value |
| OxfordAslRun.DropRunsExample | PyASL/pyasl/modules/oxford_asl_run.py:79-82 | [0, 5, 0.9, 1.8] with tol 1 keeps [0, 5, 0.9] |
| OxfordAslRun.KeepDistinctExample | PyASL/pyasl/modules/oxford_asl_run.py:83-86 | [0, 5, 0.9] with tol 1 keeps [0, 5] |
| OxfordAslRun.KeepDistinctTwo | PyASL/pyasl/modules/oxford_asl_run.py:83-86 | [0, 5] with tol 1 is kept whole |
| OxfordAslRun.CollapseMissesWithinTol | PyASL/pyasl/modules/oxford_asl_run.py:64-87 | the 2*tol bound is needed: 1.8 is dropped from [0, 5, 0.9, 1.8] although it is more than tol from every returned value |
| OxfordAslRun.DropRunsLoop | PyASL/pyasl/modules/oxford_asl_run.py:79-82 | the first loop computes DropRuns |
| OxfordAslRun.IsFarFrom | PyASL/pyasl/modules/oxford_asl_run.py:85 | `not any(abs(v - u) <= tol ...)` holds exactly when v is more than tol from every kept value |
| OxfordAslRun.KeepDistinctLoop | PyASL/pyasl/modules/oxford_asl_run.py:83-86 | the second loop computes KeepDistinct |
| OxfordAslRun.CollapseEqual | PyASL/pyasl/modules/oxford_asl_run.py:64-87 | `_collapse_equal` computes Collapse |
| OxfordAslRun.FloatOf | PyASL/pyasl/modules/oxford_asl_run.py:107-108 | `float(x)` keeps a number and raises on null, lists and objects |
| OxfordAslRun.ShiftAll | PyASL/pyasl/modules/oxford_asl_run.py:108 | each inversion time is its PLD as a float plus the bolus, failing exactly when some PLD is not a number (also line 113) |
| OxfordAslRun.ComputeTisBolus | PyASL/pyasl/modules/oxford_asl_run.py:105-116 | CASL and PCASL take the bolus from LabelingDuration and set the CASL flag, PASL from BolusCutOffDelayTime; any other type raises ValueError and a missing type KeyError |
| OxfordAslRun.TisProperties | PyASL/pyasl/modules/oxford_asl_run.py:105-115 | the inversion times are the collapsed PLD+bolus values: none exactly when there are no non-zero PLDs, starting with the first, pairwise more than 1e-6 apart, in order, each raw time within 2e-6 of one of them |
| OxfordAslRun.TisAreCollapsed | PyASL/pyasl/modules/oxford_asl_run.py:108-109 | the inversion times are Collapse of the shifted PLDs at the default tolerance (also lines 113-114) |
| OxfordAslRun.CollapseProperties | PyASL/pyasl/modules/oxford_asl_run.py:64-87 | Collapse is a separated, order-keeping subsequence that covers its input within 2*tol |
| OxfordAslRun.OptionArgs | PyASL/pyasl/modules/oxford_asl_run.py:161-163 | each set option adds a flag and its value; none set, nothing added |
| OxfordAslRun.BaseArgs | PyASL/pyasl/modules/oxford_asl_run.py:127-171 | building the base arguments raises KeyError without LabelControl and otherwise fails exactly when the TIs and bolus cannot be computed |
| OxfordAslRun.BaseArgsLayout | PyASL/pyasl/modules/oxford_asl_run.py:138-156 | the command starts with oxford_asl and the optional --wp/--mc, then --iaf tc or ct by LabelControl, --ibf (default rpt), --casl for CASL, --tis when there are TIs, and --bolus |
| OxfordAslRun.BaseArgsOrder | PyASL/pyasl/modules/oxford_asl_run.py:138-148 | the order flags follow the head: --iaf tc/ct and --ibf with rpt as default |
| OxfordAslRun.BaseArgsTiming | PyASL/pyasl/modules/oxford_asl_run.py:151-156 | --casl appears exactly for CASL, --tis exactly when there are TIs, then --bolus with the bolus formatted by %g |
| OxfordAslRun.BaseArgsParts | PyASL/pyasl/modules/oxford_asl_run.py:127-171 | the base arguments are the head, order, timing and tail parts in that order |
| OxfordAslRun.HeadLayout | PyASL/pyasl/modules/oxford_asl_run.py:138-140 | the head is oxford_asl followed by --wp exactly when wp is set and --mc exactly when mc is set |
| OxfordAslRun.TimingLayout | PyASL/pyasl/modules/oxford_asl_run.py:151-156 | the timing part is --casl (CASL only), --tis and the list (when there are TIs), and --bolus with its value |
| OxfordAslRun.NonEmptyOrder | PyASL/pyasl/modules/oxford_asl_run.py:26 | a non-empty Images dictionary has a first key |
| OxfordAslRun.FirstImagesEntry | PyASL/pyasl/modules/oxford_asl_run.py:11-28 | the first Images entry in insertion order; a missing, non-dictionary or empty Images raises ValueError |
| OxfordAslRun.PathJoin | PyASL/pyasl/modules/oxford_asl_run.py:45 | `os.path.join`: an absolute second part replaces the first, otherwise the result starts with the first part and ends with the second |
| OxfordAslRun.FirstExisting | PyASL/pyasl/modules/oxford_asl_run.py:47-49 | the first existing path among the name plus each NIfTI extension, or none when none exists |
| OxfordAslRun.GuessPath | PyASL/pyasl/modules/oxford_asl_run.py:30-50 | the joined path when it exists, else an existing path with a NIfTI extension added, else the joined path when none exists |
| OxfordAslRun.Get | PyASL/pyasl/modules/oxford_asl_run.py:189 | `entry.get(key)` gives the value or None on a dictionary and raises on anything else (also line 229) |
| OxfordAslRun.StructArgs | PyASL/pyasl/modules/oxford_asl_run.py:173-193 | no structural arguments unless useStructural; then a missing Images raises, a missing anat raises ValueError, and otherwise the result is -s and the anat path |
| OxfordAslRun.SessionAslArgs | PyASL/pyasl/modules/oxford_asl_run.py:216-219 | the session input is -i and the guessed path of the first ASL image |
| OxfordAslRun.CalibrationArgs | PyASL/pyasl/modules/oxford_asl_run.py:224-226 | the calibration arguments are -c, the M0 path, --tr and the M0 RepetitionTime, --alpha and LabelingEfficiency, and fail exactly when one of those is missing (also lines 233-235) |
| OxfordAslRun.InputArgs | PyASL/pyasl/modules/oxford_asl_run.py:195-236 | the inputs start with -i and the override asl_path when one is given |
| OxfordAslRun.InputArgsErrors | PyASL/pyasl/modules/oxford_asl_run.py:209-236 | without overrides a missing Images raises; without calibration the inputs are the session ASL alone; calibration without an M0 raises ValueError and otherwise adds six arguments starting with -c |
| OxfordAslRun.ReplaceNothing | PyASL/pyasl/modules/oxford_asl_run.py:251 | replacing a pattern that does not occur changes nothing |
| OxfordAslRun.ReplaceRawdata | PyASL/pyasl/modules/oxford_asl_run.py:251 | a base path with one `rawdata` gets `derivatives` in its place and is otherwise unchanged |
| OxfordAslRun.ReplaceOnce | PyASL/pyasl/modules/oxford_asl_run.py:251 | `str.replace` of a single occurrence substitutes exactly that occurrence |
| OxfordAslRun.ReplaceAtStart | PyASL/pyasl/modules/oxford_asl_run.py:251 | a single occurrence at the start is substituted |
| OxfordAslRun.OutputArgs | PyASL/pyasl/modules/oxford_asl_run.py:238-253 | the output is -o and params' outdir when given, else the first base path with rawdata replaced by derivatives; it fails exactly when there is no first Images entry |
| OxfordAslRun.Command | PyASL/pyasl/modules/oxford_asl_run.py:289-318 | the command is base, structural, input and output arguments in that order, failing exactly when one of them fails, with a base failure reported first |

## Left out

- Image and file I/O: nibabel loading and saving, NIfTI headers, `os.listdir` and the file-name regular expressions, `os.makedirs`, JSON and YAML reading (`_load_yaml`, pyasl/pipelines/custom_pipeline.py:37-40), and the text files the ROI and ASLtbx steps write. Loaded contents are parameters, and the file system is an `exists_` predicate where a path is chosen by existence.
- SPM and nipype calls (`img_coreg`, realignment, smoothing), `mricloud_getBrainMask` and `mricloud_inbrain`: these are foreign library calls. The brain masks arrive as boolean inputs.
- `mricloud_skullstrip` (pyasl/utils/mricloud_helpers.py:151-170) is file I/O around a label-mask loop that the ROI averaging already models.
- `read_2dseq_v3` (pyasl/utils/bruker_io.py:63-120) reads binary image data, and is not part of this model.
- `check_bids_format`, `create_derivatives_folders` and `load_data` (pyasl/data_import.py:9-133, 595-646) only walk and create directories. `convert2bids` and `read_asl_bids` are modelled only for their PLD-list, volume-count, SingleDelay and LabelControl logic; the copying and renaming of files is left out.
- pyasl/modules/mricloud_multidelay_calculate_M0.py is not part of this model: it is a curve fit that repeats the timing and PLD logic of the CBF/ATT module.
- `plot_save_fig` (pyasl/utils/plotting.py:16-26) only draws and saves a figure with matplotlib.
- `_run_cli` and the environment defaults of pyasl/modules/oxford_asl_run.py:255-287 run a subprocess. The model stops at the command line (`OxfordAslRun.Command`).
- Logging and `verbose` output change no state and are left out.
- Floating point: every number is a mathematical real. `exp`, `log`, `sin` and `cos` are the fields of a `Math` record passed in, and each member requires only the laws it uses. `float32` casts, rounding, and `%g`/`str` formatting (the `Text` record) are not computed. A NaN or an infinity that numpy would produce silently is reported as `Err(NotFinite(..))`.
- `np.sinc` is a function parameter of `AsltbxQuantify.SincWeights`. The numerics of the sinc interpolation are left out; only the renormalisation rule is modelled.
- `curve_fit` is a `Fitter` parameter of the multi-delay module. When the optimiser gives up, Python raises and the model returns `Err(FitFailure)`.
- MultidelayCbfAtt.VoxelFit: the bounds on CBF and ATT hold only for a fitter that respects the bounds it is given (`FitterKeepsBounds`), since the optimiser is not modelled.
- CalculateCbf.PldMs: `list(set(...))[0]` picks an element in hash order. The model takes the first non-zero PLD, which agrees whenever the non-zero PLDs are equal, as they are for single-delay data. The ASLtbx delay makes the same choice.
- CalculateM0.TotalDuration: the same `list(set(...))[0]` choice (pyasl/modules/mricloud_calculate_M0.py:101-114) is modelled by the first non-zero PLD, exact only when the non-zero PLDs are equal.
- OxfordAslRun.CollapseCovers: states that every input is within 2*tol of a returned value, not within tol. The tighter bound is false for `_collapse_equal` as written, as `CollapseMissesWithinTol` shows, and the function's documentation promises only distinct values.
- OxfordAslSplit.SeparateM0: its contract states only that the returned path exists; the lookup itself is stated by `PassThrough`.
- Python values are modelled by two datatypes: `Value` for the pipeline context and `Json` for the description files. Python's own quirks are left out: `True == 1`, hashing, unhashable keys, and non-string YAML keys.
- DataImport.ReadParamsUsing: an anat or M0 section that is a list or a string makes the model raise `TypeError`. In Python, `key not in section` searches a list's items or a string's substrings (pyasl/data_import.py:244-262), so such a section is rejected with `Missing parameter: k` for its first key not found, or accepted when all six scanner keys are found; `make_sidecar` then copies a list and raises AttributeError on a string. Only a number, a bool or null section raises TypeError there. The ASL section is modelled for all these cases (`DataImport.MissingIn`).
- Error messages are kept only where the source builds them from the input, such as `Missing parameter: k`. Elsewhere only the exception's kind is modelled.
- Dictionary iteration order is an explicit parameter where the source depends on it: `order` where it takes "the first entry" (`FirstImagesEntry`), and `ctxOrder` for the keys of an object ASLContext that `OxfordAslSplit.Run` enumerates. The model does not check that such a parameter lists the object's keys; `KeyOrder` states it where a lemma needs it.
- OxfordAslRun.PldsSeq: a PLDList that is a JSON object is iterated by Python over its keys in insertion order, which a map does not keep; the model reports it as a TypeError. Lists, strings, numbers, bools and null are modelled as Python handles them.
- CustomPipeline.NormKey: only ASCII letters and digits are modelled. Python's `str.lower()` and `str.isalnum()` are Unicode-aware, so a step name with a non-ASCII letter such as `é` keeps it in Python (and fails to resolve) while the model drops it.
- BrukerIo: the regular expressions' `\d` also matches non-ASCII decimal digits in Python; the model's `IsDigit` accepts only `0`-`9`.
- The pipeline context is shared by reference in Python: `Context(ctx or {})` (pyasl/pipelines/custom_pipeline.py:235) copies the dictionary shallowly, so a step that writes into a numpy array in place (SlicePLDAdjust's `arr[:, :, z] = ...`, pyasl/modules/preclinical_slice_pld_adjust.py:32-33) also changes the caller's array. The model's `Value`s are immutable, so this aliasing is not captured: the caller's map is never changed.
- `data_descrip` is updated in place by some dict-style steps. Those steps are outside this model, and their effect is an `Env.dictStep` oracle. The same holds for the kwargs steps other than SteadyStateTrim, ControlLabelSplit and SlicePLDAdjust (`Env.kwargsStep`).
- `_read_data_description_safe` (pyasl/pipelines/custom_pipeline.py:180-186) and `Path.resolve` (`_resolve_one`, lines 72-77) are fields of `Env`.
- The `RuntimeError` for an unknown call style (pyasl/pipelines/custom_pipeline.py:277-278) is not modelled: every alias has style kwargs or dict, so it cannot be reached.
- `PairPositions` from the ASLtbx subtraction has no method of its own. The index logic is the function `AsltbxQuantify.ControlPositions`, with `ClampWindow` for the in-place clamp.
- The alias table is a parameter of the runner (`Pipeline`, `RunCustomPipeline`), so that the same run can be stated with the table as written and with the corrected table. That the table's keys are already in `_normkey` form is not stated for the table as a whole.
- Common.ParseDecimal: Python's `float(s)` (used by `PipelineContext.ToFloat`) is modelled on an optional leading minus, digits, and an optional point followed by digits. The forms `1.` and `.5`, surrounding whitespace, `+`, underscores, exponents and `inf`/`nan` are left out; the model treats them as a ValueError.
- Common.ParseInt: Python's `int(s)` is modelled on an optional leading minus followed by digits. Surrounding whitespace, `+` and underscores are left out; the model treats them as a ValueError.

## Findings

| source | as written | input that shows it | evidently intended | confidence | as-written member | corrected member |
|---|---|---|---|---|---|---|
| PyASL/pyasl/utils/mricloud_helpers.py:1-8,244-264 | `mricloud_read_roi_lists_info` calls `re.split`, but the module never imports `re`, so the first pass of its loop raises NameError | any non-empty statistics file, e.g. the lines `T`, `-` with ROI types `["T"]` | the loop parses the file: here one block of type `T` with no `.img` lines | not executed; high, the import list is short and complete | RoiLists.ReadRoiListsInfoAsWritten, RoiLists.AsWrittenLosesBlock | RoiLists.MricloudReadRoiListsInfo, RoiLists.RoiListsWellFormed |
| PyASL/pyasl/data_import.py:174-191 | the loop that reports missing labeling keys sits inside the PASL branch, so the `LabelingDuration` chosen for PCASL and CASL is never checked | a PCASL parameter file with every required ASL key but `LabelingDuration` is accepted | the file is rejected with `Missing parameter: LabelingDuration` | not executed; high, the list is built and then unused | DataImport.LabelingDurationIgnored | DataImport.LabelingDurationReported |
| PyASL/pyasl/pipelines/custom_pipeline.py:130-131 | the aliases `MRICloudCalculateCBF` and `MRICloudCalculateDiffMap` name the modules `mricloud_calculate_cbf` and `mricloud_calculate_diff_map` and the class `MRICloudCalculateDiffMap`, which the package does not define | a configuration with the step `MRICloudCalculateCBF` raises ImportError on a case-sensitive file system | the entries name `mricloud_calculate_CBF` and `mricloud_calculate_diffmap` with the class `MRICloudCalculateDiffmap`, and the step runs | not executed; high, the module files are spelled differently | CustomPipeline.MriCloudAsWrittenMissing, CustomPipeline.MriCloudAsWrittenRaises | CustomPipeline.MriCloudCorrected, CustomPipeline.AliasImports |
