# EEG sensor tools and the PackBacker job runner, modelled in Dafny

This project models two parts of the na-online tools.

**The EEG sensor pipeline (C++).**

- `ReaderBND` reads electrode positions from a BND text file. A header of
  `NumberPositions=` and `UnitPosition` lines is followed by a `Positions`
  line and one tab-separated coordinate line per point.
- `eeg_sensor_generator` takes the outer-skin surface of a BEM model. It
  drops the points below a cut height and turns every `skip`-th remaining
  point into an EEG channel.
- `eeg_sensor_transformator` reads the EEG channels of a FIFF file and
  parses a 4x4 transformation from a text file. It moves every electrode by
  that matrix and writes the channels back.

**PackBacker (Python), the installer of the tools' dependencies.**

- A job file names installers, one per line, with `key=value;...`
  parameters after `": "`.
- Every installer prototype whose name starts the lower-cased line builds
  an installer from those parameters.
- Executing the job offers each installer to the user, who may accept it.
  An accepted installer runs its three stages (`_pre_install`, `_install`,
  `_post_install`). Failures are counted.
- Two installers are modelled: MNE-CPP and Eigen3.

Modules and files:

| file | module | models |
|---|---|---|
| `option.dfy` | `Options` | the optional value shared by the readers and parsers |
| `text.dfy` | `Text` | keep-empty-parts split and join (`QString::split`, `str.split`) |
| `cpp_string.dfy` | `CppString` | `std::string::find`, `find_first_of`, `substr`, `npos` and 64-bit `size_t` wrap-around |
| `geometry.dfy` | `Geometry` | points and 4x4 matrices |
| `fiff_channel.dfy` | `FiffChannel` | the channel record both sensor tools fill in |
| `reader_bnd.dfy` | `ReaderBnd` | `src/ReaderBND.cpp` |
| `sensor_generator.dfy` | `SensorGenerator` | `src/eeg_sensor_generator.cpp` |
| `sensor_transformator.dfy` | `SensorTransformator` | `src/eeg_sensor_transformator.cpp` |
| `py_text.dfy` | `PyText` | `str.find`, slicing, `str.strip`, `str.lower`, POSIX `os.path.join` |
| `installer.dfy` | `Installer` | `packbacker/installer.py`: the installer object and the shared stage patterns |
| `mnecpp.dfy` | `MneCpp` | `packbacker/installers/mnecpp.py` |
| `eigen3.dfy` | `Eigen3` | `packbacker/installers/eigen3.py` |
| `install_process.dfy` | `InstallProcess` | `Installer.install`, `instance`, `prototype` with per-class dispatch |
| `job.dfy` | `Job` | `packbacker/job.py` |

How the outside world is represented:

- **Files and streams** are sequences of lines. A stream position is a
  number that the reader threads along.
- **Number parsing** (`istringstream >>`, `QString::toDouble`) is a
  function parameter.
- **The user and the machine** are an `Env` value with four parts:
  - `answer(q, prompt)` is the line typed at the q-th prompt;
  - `found(p)` says whether `Utils.check_program(p, "--version")` finds
    `p`;
  - `raises(q, step)` says whether the step offered at the q-th prompt
    ends in an exception once it runs. Examples are `os.chdir` into a
    missing directory, or an `OSError` from `subprocess.call`. Every step
    run has a prompt of its own, so two installers of the same class, or
    two runs of one step, can have different outcomes: what earlier steps
    left on disk is part of the outcome;
  - `raisesLate(q, step)` says whether such an exception comes only
    after the step has read its own input lines. MNE-CPP's compile step
    can raise in `os.chdir` before asking for the number of make jobs, or
    in `call` after it (mnecpp.py:109-111).
- **`os.path.expanduser`** is a function parameter `expand`.

How the source behaves as written. The model follows the code in each of
these cases:

- `readUnitPos` tests `find(token) > 12`, and a token that is absent gives
  `npos`, which passes that test. So a `UnitPosition` line yields the
  millimetre factor 0.001, except `UnitPositionmm...`, which yields 0.01.
  Centimetre, decimetre and metre are never chosen
  (`ReaderBnd.UnitLineResolution`).
- The public `readPositions` starts `rc` at false and only ever combines
  it with `&=`, so it always returns false (`ReaderBnd.RunKeepsRcFalse`).
- The y text of a coordinate line keeps its trailing tab, because the
  source cuts `substr(0, pos + 1)`.
- The generator's help text says a cut factor of 0 keeps all points. In
  the code the threshold is then the minimum, and the test `z > threshold`
  removes the lowest points (`SensorGenerator.CutZeroRemovesMinimum`).
- The running maximum starts at `numeric_limits<float>::min()`. That is
  the smallest positive float, not the most negative one.
- A job line that matches several prototypes gets one installer from each
  of them (`Job.LineAddsEveryMatch`).
- `read_job` reads `line[0]` of every line. Lines produced by iterating
  over a file are never empty, so `Job.ReadLines` and `Job.ReadJob` require
  non-empty lines.

## Model

| member | source | states |
|---|---|---|
| Text.CountZero | src/eeg_sensor_transformator.cpp:115 | a string holds no separator exactly when its separator count is 0 |
| Text.Split | src/eeg_sensor_transformator.cpp:115 | the keep-empty-parts split has one more part than there are separators, and no part holds a separator |
| Text.JoinSplit | tools/PackBacker/packbacker/job.py:73 | joining the parts of a split with the separator gives the input back |
| Text.SplitJoin | tools/PackBacker/packbacker/job.py:76 | splitting separator-free parts joined by the separator gives the same parts back |
| Text.SplitPlain | tools/PackBacker/packbacker/job.py:76 | a string without the separator splits into itself alone |
| Text.SplitPrefix | tools/PackBacker/packbacker/job.py:73 | a separator-free head before the first separator becomes the first part and the rest splits on its own |
| CppString.SizeInc | src/ReaderBND.cpp:122 | `pos + 1` in 64-bit size_t stays below 2^64 |
| CppString.SizeIncIsModular | src/ReaderBND.cpp:122 | `SizeInc` is addition modulo 2^64, so `npos + 1` is 0 |
| CppString.FindFrom | src/ReaderBND.cpp:35 | the search from i answers npos or a position at or after i where the pattern fits |
| CppString.FindFromFirst | src/ReaderBND.cpp:35 | the search stops at the first occurrence at or after i, and answers npos only when there is none |
| CppString.Find | src/ReaderBND.cpp:77 | `find` answers npos or an index where the pattern fits |
| CppString.FindCharFrom | src/ReaderBND.cpp:117 | the character search from i answers npos or an index in [i, size) |
| CppString.FindChar | src/ReaderBND.cpp:59 | `find(c)` / `find_first_of(c)` answers npos or an index in the string |
| CppString.FindCharFromFirst | src/ReaderBND.cpp:117 | the character search stops on an occurrence of c, with no c between the start and where it stops |
| CppString.FindCharMembership | src/ReaderBND.cpp:59-64 | the character search fails exactly when c is absent, and otherwise stops on the first c |
| CppString.FindCharIsFind | src/ReaderBND.cpp:117 | searching a character is searching the one-character pattern |
| CppString.Substr | src/ReaderBND.cpp:118 | `substr(pos, n)` is the slice from pos of length min(n, size - pos) |
| CppString.FindZeroIsPrefix | src/ReaderBND.cpp:35-47 | `find(p) == 0` holds exactly when the line starts with p |
| CppString.FindCharAfter | src/ReaderBND.cpp:117 | in `a + [c] + b` with no c in a, the first c is at \|a\| |
| FiffChannel.EegChannel | src/eeg_sensor_generator.cpp:128-139 | the channel is an EEG coil with identity coil transform, the electrode in both `eeg_loc` columns, and `loc` zero except x, y, z in its first entries |
| ReaderBnd.ReadNumPos | src/ReaderBND.cpp:57-70 | a count is read exactly when the line holds a space, and it is the number parsed after the first space |
| ReaderBnd.ReadUnitPos | src/ReaderBND.cpp:72-105 | the factor is one of 0.001, 0.01, 0.1 and 1, and an unknown unit gives failure with factor 1 |
| ReaderBnd.UnitLineResolution | src/ReaderBND.cpp:72-101 | on a `UnitPosition` line the result is success, with 0.01 when the first "mm" sits at index 12 and 0.001 otherwise |
| ReaderBnd.NoOccurrenceBefore | src/ReaderBND.cpp:77 | when none of the first k characters starts the pattern, `find` answers k or more |
| ReaderBnd.SeparatedUnitReadAsMillimetre | src/ReaderBND.cpp:77-80 | `UnitPosition`, a separator other than 'm' and any unit, "m", "cm" and "dm" included, gives the millimetre factor |
| ReaderBnd.AdjacentMillimetreReadAsCentimetre | src/ReaderBND.cpp:77-85 | `UnitPositionmm...` gives the centimetre factor |
| ReaderBnd.FieldsAfterFirstTab | src/ReaderBND.cpp:117-122 | a line `a\trest` gives x from a, and y and z from rest |
| ReaderBnd.TailOfTwoColumns | src/ReaderBND.cpp:123-128 | a tail `b\tc` gives y from b with its tab, and z from c |
| ReaderBnd.TailWithoutTab | src/ReaderBND.cpp:123-128 | a tail without a tab gives an empty y text and z from the whole tail |
| ReaderBnd.FieldsOfThreeColumns | src/ReaderBND.cpp:117-130 | `a\tb\tc` gives x from a, y from `b\t` and z from c |
| ReaderBnd.FieldsOfTwoColumns | src/ReaderBND.cpp:117-130 | with a single tab, y is read from the empty text and z from the rest |
| ReaderBnd.FieldsWithoutTab | src/ReaderBND.cpp:117-130 | without a tab, x and z are both read from the whole line, because `npos + 1` wraps to 0 |
| ReaderBnd.DecodeLinesSnoc | src/ReaderBND.cpp:115-133 | decoding one more line of a block appends its point |
| ReaderBnd.Taken | src/ReaderBND.cpp:115 | the block loop reads min(count, lines left) lines |
| ReaderBnd.DirectivesOfPart | src/ReaderBND.cpp:32-53 | the directives of a part of the file are that part of the directives |
| ReaderBnd.HeaderEffect | src/ReaderBND.cpp:35-45 | a header line can only turn `rc` from true to false (`rc &=`) |
| ReaderBnd.Handle | src/ReaderBND.cpp:35-51 | one handled line moves the stream forward, within the file, and never turns `rc` true |
| ReaderBnd.Run | src/ReaderBND.cpp:32-53 | the header loop only moves the stream forward, within the file |
| ReaderBnd.RunHeaderStep | src/ReaderBND.cpp:35-45 | a count, unit or other line updates the header variables, and the loop goes on from the next line |
| ReaderBnd.RunPositionsStep | src/ReaderBND.cpp:47-51 | a `Positions` line reads a block of the next min(count, rest) lines with the current factor, and sets `hasPos` |
| ReaderBnd.RunStops | src/ReaderBND.cpp:32 | once both flags hold, the loop consumes one more line, if there is one, and stops |
| ReaderBnd.RunKeepsRcFalse | src/ReaderBND.cpp:26-54 | `rc` starts false and stays false, so the public `readPositions` always returns false |
| ReaderBnd.HeaderPrefix | src/ReaderBND.cpp:32-45 | before the first `Positions` line the loop just folds the header lines |
| ReaderBnd.FoldHeaderHasPosNum | src/ReaderBND.cpp:38-44 | `hasPosNum` gets set exactly when a count or unit line has been seen |
| ReaderBnd.FoldHeaderKeepsCount | src/ReaderBND.cpp:30-37 | without a `NumberPositions=` line the count stays 0 |
| ReaderBnd.FoldHeaderKeepsFactor | src/ReaderBND.cpp:31-43 | without a `UnitPosition` line the factor stays 1 |
| ReaderBnd.ParseLineKind | src/ReaderBND.cpp:35-47 | the branch taken follows the first of the three prefixes that the line starts with |
| ReaderBnd.ThreeParts | src/ReaderBND.cpp:32-53 | where the header, the `Positions` line and the block sit in the file, and their directives |
| ReaderBnd.HeaderDirectives | src/ReaderBND.cpp:35-45 | header lines give no `Positions` directive, and a count or unit line sets `hasPosNum` |
| ReaderBnd.FoldThenPositions | src/ReaderBND.cpp:32-51 | the loop folds the header and then meets the `Positions` line |
| ReaderBnd.ReadHeaderThenBlock | src/ReaderBND.cpp:24-55 | in a well-formed file exactly one block of min(count, block lines) lines is read with the header's factor, the loop stops right after it, and `rc` is false |
| ReaderBnd.BlockThenStop | src/ReaderBND.cpp:32-53 | a `Positions` line met while `hasPosNum` holds reads its block and ends the loop |
| ReaderBnd.DecodedSingleBlock | src/ReaderBND.cpp:115-133 | a block gives one point per line, each decoded with its factor |
| ReaderBnd.NoMorePoints | src/ReaderBND.cpp:32-51 | once `hasPos` holds and the count is 0 or `hasPosNum` holds, no further coordinate line is read |
| ReaderBnd.DecodedSnoc | src/ReaderBND.cpp:132 | one more block appends its points |
| ReaderBnd.AppendBlock | src/ReaderBND.cpp:132 | the points appended by one more block extend the output |
| ReaderBnd.DecodedEmptyBlocks | src/ReaderBND.cpp:115 | empty blocks append no point |
| ReaderBnd.NoCountLineNoPoints | src/ReaderBND.cpp:30-51 | without a `NumberPositions=` line before the first `Positions` line, no point is read at all |
| ReaderBnd.ZeroCountBlock | src/ReaderBND.cpp:47-51 | a `Positions` line met while the count is 0 leads to no point being read |
| ReaderBnd.DecodeBlock | src/ReaderBND.cpp:107-135 | the block reader reads min(count, lines left) lines, appends one scaled point per line in order, and returns true |
| ReaderBnd.HandleLine | src/ReaderBND.cpp:35-51 | the loop body does what `Handle` says, and the output stays the points of the blocks read |
| ReaderBnd.DirectiveOfLine | src/ReaderBND.cpp:35-51 | the `find(p) == 0` tests of the loop body pick the same branch, with the same count or unit, as the directive of the line |
| ReaderBnd.HandleHeaderLine | src/ReaderBND.cpp:35-45 | a count, unit or other line changes only the header variables, as that line's effect says |
| ReaderBnd.HandlePositionsLine | src/ReaderBND.cpp:47-51 | a `Positions` line reads a block of the next min(count, rest) lines with the current factor and sets `hasPos` |
| ReaderBnd.PositionsTurn | src/ReaderBND.cpp:47-51 | the `Positions` branch returns true, moves the stream past min(count, rest) lines, records that block with the current factor, and the output becomes the points of the blocks read, now one more |
| ReaderBnd.HeaderLoop | src/ReaderBND.cpp:26-54 | the header loop ends as `Run` says, appends the points of its blocks, and returns false |
| ReaderBnd.ReaderBND.constructor | src/ReaderBND.cpp:9-17 | the reader starts at the first line of the file |
| ReaderBnd.ReaderBND.ReadPositions | src/ReaderBND.cpp:24-55 | `readPositions` appends the points of the blocks `Run` reads, leaves the stream where the loop stopped, and returns false |
| SensorGenerator.MinZIsMinimum | src/eeg_sensor_generator.cpp:254-267 | the running minimum is at most every z and at most FLT_MAX, and is one of them, or FLT_MAX |
| SensorGenerator.MaxZIsMaximum | src/eeg_sensor_generator.cpp:255-267 | the running maximum is at least every z and at least FLT_MIN, and is one of them, or FLT_MIN |
| SensorGenerator.Kept | src/eeg_sensor_generator.cpp:272-283 | no more points are kept than there are |
| SensorGenerator.KeptPlusRemoved | src/eeg_sensor_generator.cpp:272-285 | every point is either kept or counted as removed |
| SensorGenerator.KeptMembers | src/eeg_sensor_generator.cpp:275-278 | a point is kept exactly when it is a surface point strictly above the threshold |
| SensorGenerator.NothingAbove | src/eeg_sensor_generator.cpp:275 | when every point is at or below the threshold, nothing is kept |
| SensorGenerator.CutOneKeepsNothing | src/eeg_sensor_generator.cpp:271-278 | with cut factor 1 no point is kept |
| SensorGenerator.CutZeroRemovesMinimum | src/eeg_sensor_generator.cpp:271-282 | with cut factor 0 the threshold is the minimum, and at least one point is removed |
| SensorGenerator.RemovedSome | src/eeg_sensor_generator.cpp:279-282 | a point at or below the threshold is counted as removed |
| SensorGenerator.RemoveBottomPoints | src/eeg_sensor_generator.cpp:247-286 | appends the surface points strictly above min + (max - min) * cut, in order, and returns how many it left out |
| SensorGenerator.StrideCountIsCeiling | src/eeg_sensor_generator.cpp:126 | the channel count is the least k with k * skip >= n |
| SensorGenerator.StridedAt | src/eeg_sensor_generator.cpp:126-141 | channel k emitted from index `from` on is the EEG electrode at from + k * skip |
| SensorGenerator.StridedFromStart | src/eeg_sensor_generator.cpp:126-141 | channel k is the EEG electrode at `points[k * skip]` |
| SensorGenerator.StridedLength | src/eeg_sensor_generator.cpp:126-142 | the loop emits ceil(n / skip) channels |
| SensorGenerator.StrideChannels | src/eeg_sensor_generator.cpp:123-145 | the stride loop emits every skip-th point as an EEG channel, and `nchan` is their number, ceil(n / skip) |
| SensorGenerator.StrideCountExact | src/eeg_sensor_generator.cpp:126 | a k with (k - 1) * skip < n <= k * skip is the channel count |
| SensorGenerator.StoreAllDefaults | src/eeg_sensor_generator.cpp:47-48 | without -s the skip keeps its default 1, and without -c the cut keeps 0.33 |
| SensorGenerator.StoreAllHasIn | src/eeg_sensor_generator.cpp:181-184 | the input flag ends up set exactly when it was set before or a -i option was given |
| SensorGenerator.StoreAllHasOut | src/eeg_sensor_generator.cpp:185-188 | the output flag ends up set exactly when it was set before or a -o option was given |
| SensorGenerator.StoreAllInRange | src/eeg_sensor_generator.cpp:189-210 | when every option is accepted, the skip is at least 1 and the cut is within [0, 1] |
| SensorGenerator.ParseArguments | src/eeg_sensor_generator.cpp:171-232 | parsing succeeds exactly when every option is accepted and both -i and -o were given, and then the arguments are the defaults overwritten in order |
| SensorGenerator.AcceptedArgumentsInRange | src/eeg_sensor_generator.cpp:47-48 | accepted arguments carry a skip of at least 1 and a cut in [0, 1] |
| SensorGenerator.Generate | src/eeg_sensor_generator.cpp:96-145 | the channels are those of the stride loop over the points kept above the cut, and `nchan` is their number |
| SensorTransformator.RowNeedsThreeSpaces | src/eeg_sensor_transformator.cpp:115-116 | a line splits into four parts exactly when it holds three spaces |
| SensorTransformator.ParseRowsFails | src/eeg_sensor_transformator.cpp:112-120 | the read fails exactly when one of the lines read does not split into four parts |
| SensorTransformator.ParseRowsContents | src/eeg_sensor_transformator.cpp:112-126 | a successful read sets row k from line k's four tokens for every line read, and leaves the other rows as they were |
| SensorTransformator.ParseRowsIgnoresRest | src/eeg_sensor_transformator.cpp:112 | lines after the fourth are never read |
| SensorTransformator.FormattedRowReadBack | src/eeg_sensor_transformator.cpp:115-124 | four space-free tokens joined by single spaces are read back as that row |
| SensorTransformator.ReadTransform | src/eeg_sensor_transformator.cpp:110-126 | the row loop succeeds exactly when the row parse does, then gives its matrix, and reads min(4, lines) lines |
| SensorTransformator.ApplyIdentity | src/eeg_sensor_transformator.cpp:129-131 | the identity moves no point |
| SensorTransformator.ApplyIgnoresRow3 | src/eeg_sensor_transformator.cpp:129-131 | the bottom row of the matrix has no effect on any point |
| SensorTransformator.ApplyTranslation | src/eeg_sensor_transformator.cpp:129-131 | a pure translation adds its column 3 to every point |
| SensorTransformator.TransformAllPointwise | src/eeg_sensor_transformator.cpp:131 | `t * points` maps every point, keeping their count and order |
| SensorTransformator.TransformAllIdentity | src/eeg_sensor_transformator.cpp:131 | the identity gives the points back |
| SensorTransformator.ExtractPoints | src/eeg_sensor_transformator.cpp:83-89 | the points are the first `eeg_loc` column of every picked channel, in order |
| SensorTransformator.EmitChannels | src/eeg_sensor_transformator.cpp:156-179 | one EEG channel is emitted per transformed point, in order, and `nchan` is their number |
| SensorTransformator.StoreAllFlags | src/eeg_sensor_transformator.cpp:209-220 | each flag is set exactly when an option of its kind was given |
| SensorTransformator.ParseArguments | src/eeg_sensor_transformator.cpp:200-242 | parsing succeeds exactly when there is no help or unknown option and -i, -o and -t were all given, and then the arguments are the last of each kind |
| SensorTransformator.TransformatorMain | src/eeg_sensor_transformator.cpp:40-190 | main fails on bad arguments exactly when parsing fails, writes exactly when the FIFF file has EEG channels and the transformation file is read, and channel k written is EEG channel k moved by the matrix |
| PyText.FindFrom | tools/PackBacker/packbacker/job.py:71 | the search from i answers -1 exactly when the pattern does not occur at or after i, and otherwise the first index at which it occurs |
| PyText.Find | tools/PackBacker/packbacker/job.py:71 | `find` answers -1 exactly when the pattern is absent, and otherwise its first index |
| PyText.SliceFrom | tools/PackBacker/packbacker/job.py:72 | `s[i:]` is the suffix from i, or empty past the end |
| PyText.StripLeftIsSuffix | tools/PackBacker/packbacker/job.py:75 | `lstrip` drops exactly the leading run of whitespace |
| PyText.StripRightIsPrefix | tools/PackBacker/packbacker/job.py:75 | `rstrip` drops exactly the trailing run of whitespace |
| PyText.StripIsTrimmedSlice | tools/PackBacker/packbacker/job.py:75 | `strip` gives a slice bounded by non-space characters, or empty, and all it cuts off is whitespace |
| PyText.StripKeepsTrimmed | tools/PackBacker/packbacker/job.py:75 | a string without whitespace at its ends is left as it is |
| PyText.LowerPrefix | tools/PackBacker/packbacker/installer.py:90 | lowering commutes with taking a prefix and leaves no upper-case letter |
| PyText.PathJoinRelative | tools/PackBacker/packbacker/installers/mnecpp.py:73-76 | joining relative names onto a directory without a trailing slash puts one slash between the parts |
| Installer.Installer.constructor | tools/PackBacker/packbacker/installer.py:14-18 | a new installer has its name and label, destination `expanduser("~")` and qmake `qmake5` |
| Installer.Installer.SetArgDest | tools/PackBacker/packbacker/installer.py:35-37 | the destination becomes the expanded path, and nothing else changes |
| Installer.Installer.SetArgQmake5 | tools/PackBacker/packbacker/installers/mnecpp.py:30-32 | the qmake name is replaced, and the destination is kept |
| Installer.MatchesAnyCase | tools/PackBacker/packbacker/installer.py:88-90 | a line matches exactly when its first \|name\| characters, lower-cased, spell the name |
| Installer.UpperCaseNameMatchesNothing | tools/PackBacker/packbacker/installer.py:88-90 | a name with an upper-case letter matches no line |
| Installer.GatedRanAreOffered | tools/PackBacker/packbacker/installers/mnecpp.py:58-70 | the steps run are a subsequence of the steps offered, in their order; if the stage raised, the last step run raised at one of the stage's own prompts; the stage uses at most one prompt per step plus the lines the steps run read |
| Installer.GatedPromptsOrdered | tools/PackBacker/packbacker/installers/mnecpp.py:58-70 | the prompts at which the steps run were offered are strictly increasing and lie within the stage's own prompts |
| Installer.GatedPromptsAnswered | tools/PackBacker/packbacker/installers/mnecpp.py:58-70 | each step run was offered at a prompt of its own, and the answer there was yes for that step's prompt text |
| Installer.GatedRaisesOnlyLast | tools/PackBacker/packbacker/installers/mnecpp.py:58-70 | every step run but the last returned without an exception at its prompt, and the stage raised exactly when the last step run raised at its own prompt |
| Installer.GatedOffersEveryStep | tools/PackBacker/packbacker/installers/mnecpp.py:58-70 | without an exception every step is offered, one prompt each, plus what the steps run read themselves |
| Installer.GatedRaisingStep | tools/PackBacker/packbacker/installers/mnecpp.py:58-70 | an agreed step that raises ends the stage; the next prompt follows its prompt and the input lines it read before raising |
| Installer.GatedWithoutFailures | tools/PackBacker/packbacker/installers/mnecpp.py:58-70 | when no step can raise at the stage's prompts, none does |
| Installer.GatedAllRun | tools/PackBacker/packbacker/installers/mnecpp.py:58-70 | a user who agrees to everything runs every step, in order, when none raises |
| Installer.GatedAllDeclined | tools/PackBacker/packbacker/installers/mnecpp.py:58-70 | declining everything runs nothing, and each step is offered once |
| Installer.GatedStage | tools/PackBacker/packbacker/installers/mnecpp.py:58-70 | `_install` returns True unless a step raised, and it raises exactly when a step did |
| Installer.ChainProbesPrefix | tools/PackBacker/packbacker/installers/mnecpp.py:50-53 | the chain succeeds iff every program is found; the programs probed are the chain up to and including the first one missing |
| MneCpp.InstanceOf | tools/PackBacker/packbacker/installers/mnecpp.py:34-43 | an installer is built exactly when `dest_dir` is given, with that destination and the `qmake5` parameter or its default; otherwise it raises "dest_dir parameter is missing!" |
| MneCpp.PreInstallIff | tools/PackBacker/packbacker/installers/mnecpp.py:49-56 | the checks pass exactly when git, make and qmake are found and g++ or c++ is |
| MneCpp.PreInstallProbes | tools/PackBacker/packbacker/installers/mnecpp.py:49-56 | the whole list of programs probed: git alone when git is missing; git and make when make is missing; git, make and the qmake setting otherwise; then always g++, followed by c++ exactly when g++ is missing |
| MneCpp.InstallStageOffersAll | tools/PackBacker/packbacker/installers/mnecpp.py:58-70 | `_install` returns True unless an agreed step raised, after offering all four steps; an exception comes from one of the four steps at one of the stage's prompts |
| MneCpp.CompileRaiseReadsJobsLine | tools/PackBacker/packbacker/installers/mnecpp.py:106-113 | a compile that raises in `call` has consumed the make-jobs line, and one that raises in `os.chdir` has not |
| MneCpp.ReportsUnderDestination | tools/PackBacker/packbacker/installers/mnecpp.py:72-78 | the reported directories are dest/mne-cpp/MNE and dest/mne-cpp/lib |
| Eigen3.InstanceOf | tools/PackBacker/packbacker/installers/eigen3.py:24-31 | an installer is built exactly when `dest_dir` is given, with that destination; otherwise it raises "dest_dir parameter is missing!" |
| Eigen3.PreInstallIsHgCheck | tools/PackBacker/packbacker/installers/eigen3.py:37-40 | the check is exactly whether hg is found, and hg is the only program probed |
| Eigen3.InstallStageOffersBoth | tools/PackBacker/packbacker/installers/eigen3.py:42-50 | `_install` returns True after two prompts unless download or initialize raised at one of those two prompts |
| Eigen3.NoCompileNoInputs | tools/PackBacker/packbacker/installers/eigen3.py:42-50 | steps other than compiling read no input line |
| Eigen3.ReportsUnderDestination | tools/PackBacker/packbacker/installers/eigen3.py:52-55 | the reported include directory is dest/eigen322 |
| InstallProcess.InstallStagesInOrder | tools/PackBacker/packbacker/installer.py:57-73 | the stages run in order, each only after the previous returned True, and the result is True exactly when all three did |
| InstallProcess.GenericInstallFails | tools/PackBacker/packbacker/installer.py:48-51 | the abstract installer always fails, in `_install` |
| InstallProcess.MneCppInstallIff | tools/PackBacker/packbacker/installers/mnecpp.py:49-78 | MNE-CPP installs exactly when its tools are found and no agreed step raised |
| InstallProcess.MneCppInitializeRaises | tools/PackBacker/packbacker/installers/mnecpp.py:88-95 | with the tools found and every prompt accepted, an initialize step that raises (`os.chdir` into a checkout that is missing) makes `install` return False after two prompts, without the post stage |
| InstallProcess.MneCppAllStepsRun | tools/PackBacker/packbacker/installers/mnecpp.py:58-78 | with the tools found, every prompt accepted and no step raising, all four steps run, the make-jobs line is read and `install` returns True after five prompts |
| InstallProcess.Eigen3InstallIff | tools/PackBacker/packbacker/installers/eigen3.py:37-55 | Eigen3 installs exactly when hg is found and no agreed step raised |
| InstallProcess.DecliningIsNotFailure | tools/PackBacker/packbacker/installer.py:57-73 | a plugin whose tools are present installs successfully even when every step is declined |
| InstallProcess.InstanceNeedsDestination | tools/PackBacker/packbacker/installer.py:75-81 | an installer is built exactly for a plugin class given `dest_dir`; otherwise the error is a ParameterError for a plugin and a plain exception for the base class |
| InstallProcess.Prototype | tools/PackBacker/packbacker/installers/mnecpp.py:45-47 | a prototype is a fresh default installer of its class, with its name and label |
| InstallProcess.Instance | tools/PackBacker/packbacker/installers/mnecpp.py:34-43 | `instance` gives a fresh installer with the settings `InstanceOf` states, or the error it raises |
| Job.ParamText | tools/PackBacker/packbacker/job.py:71-72 | the text after the first ": ", or from index 1 when there is none |
| Job.ReadParameter | tools/PackBacker/packbacker/job.py:68-79 | `read_parameter` gives the dictionary of the pieces' pairs |
| Job.StorePieces | tools/PackBacker/packbacker/job.py:74-78 | the loop stores every two-part piece, in order |
| Job.StoredKeys | tools/PackBacker/packbacker/job.py:77-78 | a key is stored exactly when some piece is a pair with that key |
| Job.LastPairWins | tools/PackBacker/packbacker/job.py:74-78 | the value stored for a key is that of the last piece with that key |
| Job.FormattedPairReadBack | tools/PackBacker/packbacker/job.py:75-78 | a `key=value` piece without '=' inside and without outer whitespace is read back as that pair, inner spaces kept |
| Job.LineAddsEveryMatch | tools/PackBacker/packbacker/job.py:54-64 | every matching plugin prototype adds an installer when `dest_dir` is given, none is added without it, and each one added gets the line's destination |
| Job.JobSetupsAppend | tools/PackBacker/packbacker/job.py:51-64 | lines are handled in order and independently |
| Job.CommentAddsNothing | tools/PackBacker/packbacker/job.py:52-53 | a comment line adds no installer |
| Job.ErrorsAtMostInstallers | tools/PackBacker/packbacker/job.py:21-36 | there is at most one error per installer |
| Job.AllDeclinedNoErrors | tools/PackBacker/packbacker/job.py:23-25 | declined installers are neither run nor counted, with one prompt each |
| Job.AcceptedGenericAllFail | tools/PackBacker/packbacker/job.py:28-32 | accepted abstract installers all count as errors |
| Job.SameClassOwnOutcomes | tools/PackBacker/packbacker/job.py:21-36 | two MNE-CPP installers in one job fail or succeed on their own: a first one whose initialize step raises counts one error and a second one that completes counts none |
| Job.Job.constructor | tools/PackBacker/packbacker/job.py:15-16 | a new job has no installers |
| Job.Job.AddInstaller | tools/PackBacker/packbacker/job.py:18-19 | `add_installer` appends the installer's settings, and nothing else changes |
| Job.Job.Execute | tools/PackBacker/packbacker/job.py:21-36 | `execute` counts exactly the failures `ExecuteRun` describes |
| Job.InstallerFor | tools/PackBacker/packbacker/job.py:55-63 | a prototype adds an installer exactly when it matches the line and its `instance` builds one |
| Job.AddLineInstallers | tools/PackBacker/packbacker/job.py:54-64 | the prototype loop appends the installers of every matching prototype, in order |
| Job.ReadLines | tools/PackBacker/packbacker/job.py:51-64 | the loop over the lines gives the installers of all non-comment lines, in order |
| Job.ReadJob | tools/PackBacker/packbacker/job.py:38-66 | `read_job` gives None exactly when the file cannot be opened, and otherwise a job holding those installers |

## Left out

- Opening and reading files, FIFF and BEM I/O, console output and logging
  are not modelled. Files are given as sequences of lines, and the picked
  FIFF channels and the BEM surface as values.
- Number parsing (`istringstream >>`, `QString::toDouble`) is a function
  parameter. Its own rules (whitespace, partial parses, failure) are not
  modelled. The count it reads is a `size_t`, below 2^64.
- ReaderBnd.DecodeLine: when a field's text is empty or all spaces,
  `istringstream >>` fails and the variable keeps its value
  (ReaderBND.cpp:120, 126, 130). So the y of a two-column line is the
  previous line's y, and uninitialised on a block's first line. The model
  reads every field through the pure `toReal` and does not carry a value
  from one line to the next.
- ReaderBnd.ReadNumPos: for `NumberPositions= ` with nothing after the
  space, `>>` fails and the source keeps the earlier count
  (ReaderBND.cpp:67). The model takes whatever `toSize` gives for the
  empty text.
- ReaderBnd.DecodeBlock: `points->reserve(countPos)` (ReaderBND.cpp:114)
  throws `std::length_error` for a count above the vector's `max_size()`
  (about 3.8e17), and can throw `std::bad_alloc` for a large smaller count.
  Nothing catches either, so the program ends. The model does not capture
  that abort: `DecodeBlock` returns true and reads min(count, lines left)
  lines for every `size_t` count. `ReaderBnd.RunPositionsStep`,
  `ReaderBnd.HeaderLoop` and `ReaderBnd.ReaderBND.ReadPositions` inherit
  this.
- Coordinates are mathematical reals. The float and double rounding of the
  source is not modelled: the cut threshold, the scale factors and the
  matrix product are all exact.
- SensorGenerator.CutZeroRemovesMinimum: needs every z to be at most
  FLT_MAX, which holds for float coordinates. That bound is not implied by
  the real-valued points.
- The `getopt` scan itself is not modelled (option letters, argument
  attachment, `opterr`). The options arrive already classified.
- SensorTransformator.TransformatorMain: the channel names `"EEG" + ch` are
  not modelled, because `FiffChannel.ChInfo` has no name field.
- The generator's and transformator's FIFF coordinate transforms (set to
  the identity) and the final `printForwardCmd` are output only and are not
  modelled.
- The generator's main does not model the search for the outer-skin layer,
  which is file I/O. `SensorGenerator.Generate` starts from that surface.
- The `ch += skip` loop variable cannot wrap around in size_t: a surface
  has fewer than 2^64 points. The wrap is not modelled.
- The transformator's `Eigen::Matrix4d mat` is uninitialised. The rows a
  short file does not set hold whatever the parameter `init` says.
- ReaderBnd.ReaderBND.constructor: the "Could not open file!" exception is
  not modelled, because the stream is given already opened.
- `UtilsUI.ask_for_execute`, `Utils.check_program` and
  `UtilsUI.ask_for_make_jobs` (tools/PackBacker/packbacker/utils.py:10-42)
  are oracles in `Env`.
  - The make-jobs question counts as one input line of the compile step.
    Its value is not modelled.
  - End of input at a prompt (`EOFError`) is not modelled.
- `subprocess.call` and `os.chdir` inside the installer steps are left out.
  Only whether a step raises is kept, as `raises`, once per prompt. What a
  step does to the file system is not modelled, so how one step's outcome
  follows from earlier steps (a `git clone` that failed without raising,
  then an `os.chdir` that raises) is given by `raises`, not derived.
- `os.path.expanduser` is the parameter `expand`. `os.path.realpath` and
  `os.path.dirname` feed only `load_prototypes`.
- `Installer.load_prototypes` and the plugin loader (directory scan and
  import) are not modelled. The prototypes are a parameter of
  `Job.ReadJob`.
- `packbacker.py` (the command line) is not part of this model.
- `str.lower` is modelled for ASCII letters only.
- `Job.Job` holds each installer by its settings (`Setup`) rather than by
  reference. Installers are never changed after `instance` returns, so no
  aliasing is lost.
- `Job.ReadJob` fills the job's list through `Job.ReadLines` rather than by
  repeated `add_installer` calls. The resulting list is the same.
- `execute`'s `except Exception` branch cannot be reached:
  `Installer.install` catches every exception itself. The branch is not
  modelled.
- InstallProcess.InstanceOf: the message of the base class exception
  (`'Instance method not implemented for: ' + str(cls)`) is shortened to
  its fixed part, because `str(cls)` is not modelled.
- The base class's `prototype` exception is not modelled.
  `InstallProcess.Prototype` requires a plugin class.
- The stream position of the BND reader is threaded as a value through
  the loop methods, and stored back in the `ReaderBND` object at the end.
