# Soccer bet analyser and duplicate file scanner: a verified model

This project models the computational core of two small programs.

**The soccer bet analyser** (`noel.py`) is a desktop tool. The user picks a
league, two teams and a bet type. The tool then estimates a probability from a
static catalog of team indicators. It adjusts each side's attack rating for
unavailable players and for recent form. It then applies one formula per bet
family:
- 3-way result, with a floor on the draw chance;
- first team to score;
- both teams to score, with a cap;
- over/under 3.0 goals.

The result is clamped to a percentage. Every successful analysis is put at the
front of a history ledger. A record in the ledger can later be given the match's
actual result.

**The duplicate file scanner** (`mina.cs`) is a console tool. It hashes every file
under a directory and groups the files by the lower-case hex text of their digest.
In each group of two or more files it keeps the first one. For every later file it
asks the user to delete, rename or skip it.

Modules:
- `Wrappers`: `Option` and `Result`.
- `SoccerData`: the league catalog (`get_mock_api_data`).
- `Estimator`: the strength adjustment, the bet formulas, the clamp, and the
  substring tests on bet labels. All of it is over exact `real` numbers.
- `History`: the validation of `run_analysis` as a function `Analyze`, plus the
  class `History.Analyser`. The class holds the history list and has the methods
  `RunAnalysis`, `SaveToHistory` and `AddActualResult`.
- `HexEncoding`: the digest-to-text loop, its decoder and its round trip.
- `DuplicateActions`: the D/R/S prompt loop and the checks of `RenameFile`.
- `DuplicateScanner`: the grouping loop, the duplicate filter and the keep-first
  processing loops.

Python's `in` on strings is modelled as substring containment (`Estimator.Contains`).
A ZeroDivisionError is modelled as an error result. Such an error escapes
`run_analysis` before the history is touched, so the model returns an error and
the history stays unchanged. The model does not require callers to avoid it.

In the duplicate scanner, most outside effects are inputs:
- The file enumeration, together with what hashing each file produced (a digest,
  an `IOException`, or any other exception), is a sequence of entries.
- The console is a sequence of lines read from a cursor. After the last line,
  every read yields null.
- What the file system answers is given as three functions: whether a rename
  target exists, how a move ends (done, an `IOException`, or another exception)
  and how a delete ends (done, an `IOException`, or another exception).

The home and away chances of a 3-way bet always sum to exactly one before the draw
floor, so the draw before the floor is always 0 and the floor fires for every
3-way bet, Manchester City at home to Manchester United included
(`Estimator.DrawFloorAlwaysFires`, `History.CityUnitedHomeWin`).

## Model

| member | source | states |
|---|---|---|
| SoccerData.GetMockApiData | noel.py:9-60 | A league gets the empty default exactly when it is not one of the three stocked leagues. Every answer lists each team that has a record, and every record has four form symbols over W/D/L. |
| SoccerData.PremierLeague | noel.py:14-29 | The Premier League entry offers ten teams and is consistent. Exactly Manchester City and Manchester United have records. |
| SoccerData.LaLiga | noel.py:30-44 | The La Liga entry offers six teams and is consistent. Exactly Real Madrid and Barcelona have records. |
| SoccerData.SouthAfricanLeague | noel.py:45-52 | The South African league entry offers four teams and is consistent. Exactly Mamelodi Sundowns, Orlando Pirates and Kaizer Chiefs have records. |
| Estimator.PenalisedAttack | noel.py:248-249 | Attack is reduced by 10% per unavailable player, with no floor. No absentees leave it unchanged. Up to ten keep a non-negative rating within [0, attack]. Ten or more give a rating ≤ 0, and more than ten give one < 0. |
| Estimator.FormWeight | noel.py:254-255 | A form weight lies in [0.9, 1.1]. Any symbol other than W and L weighs 1.0. |
| Estimator.FormSum | noel.py:255-256 | The weight sum of n symbols lies between 0.9·n and 1.1·n. |
| Estimator.FormModifier | noel.py:255-256 | The divisor is 4 whatever the length, so the modifier lies in [0.9n/4, 1.1n/4]. For a four-symbol form it lies in [0.9, 1.1]. |
| Estimator.NeutralFormDividesByFour | noel.py:255-256 | A form of n draws gives n/4, not 1, so the divisor is not the length. |
| Estimator.Adjust | noel.py:248-259 | Defences pass through unchanged. Each attack is the penalised attack times the form modifier. |
| Estimator.AdjustedAttackBounds | noel.py:248-259 | With four form symbols, the adjusted attack is between 0.9 and 1.1 times the penalised attack. Ten or more absentees leave it ≤ 0. |
| Estimator.PreFloor | noel.py:265-268 | Before the floor, home + away = 1 and draw = 0. Home and away stand in the ratio of their shares. |
| Estimator.ApplyDrawFloor | noel.py:270-274 | A draw under 0.15 becomes 0.15, and home and away are rescaled so the three sum to 1. Otherwise nothing changes. The home:away ratio is kept either way. |
| Estimator.DrawFloorAlwaysFires | noel.py:265-274 | The floor always fires. After it, draw = 0.15, the three chances sum to 1, home + away = 0.85, and the home:away ratio equals the ratio of the shares. |
| Estimator.ThreeWayInUnitRange | noel.py:265-274 | With positive shares, the reported home and away chances lie strictly between 0 and 0.85. |
| Estimator.ThreeWayLabels | noel.py:263-278 | The three 3-way labels yield the home chance, exactly 0.15, and the away chance of one floored distribution. |
| Estimator.FirstToScoreComplement | noel.py:280-283 | When the attack sum is not zero, Home is home attack over the attack sum, and Home + Away = 1. |
| Estimator.BttsYes | noel.py:287-288 | The Yes chance is the product of the half-attacks when that is at most 0.95, and 0.95 otherwise. |
| Estimator.BttsComplement | noel.py:285-290 | Yes never exceeds 0.95, and Yes + No = 1. |
| Estimator.OverBetGetsUnderChance | noel.py:292-296 | As written, the Over label gets 1 − goals/5. For one expected goal that is 0.8 instead of 0.2. |
| Estimator.OverUnderComplement | noel.py:294-296 | With the corrected option test, Over = goals/5, Under = 1 − goals/5, and the two sum to 1. |
| Estimator.OverUnderLabels | noel.py:292-296 | As written, the Over label and the Under label both get 1 − expected goals/5. |
| Estimator.Probability | noel.py:262-296 | The raw probability fails exactly when the formula chosen for the label divides by zero. The over/under branch uses the bare-word test as written. |
| Estimator.FinalPercent | noel.py:298 | The percentage is always in [0, 100]. It is 100·prob for prob in [0, 1], 0 below that range and 100 above it. |
| Estimator.Percent | noel.py:246-298 | For two team records, the result fails exactly on a division by zero. Otherwise it lies in [0, 100] and is the clamp of the raw probability. |
| Estimator.OfferedBetsNameAFamily | noel.py:84-89 | Each of the nine offered bet labels names one of the four bet families the analysis dispatches on. |
| Estimator.UnknownBetYieldsZero | noel.py:262-298 | A label that names no bet family yields 0%. |
| History.Analyze | noel.py:226-298 | An empty field, the same team twice, or a team without a catalog record each give their error. A valid selection succeeds exactly when the chosen formula does not divide by zero on the adjusted records, and then yields the clamped formula value. Otherwise it fails with the division-by-zero error. A success lies in [0, 100] and needs a stocked league. |
| History.CityUnitedRecords | noel.py:17-26 | The catalog records of Manchester City and Manchester United. |
| History.CityUnitedStrength | noel.py:248-259 | City at home to United: attacks 2.408 and 1.31625, defences 0.8 and 1.4. |
| History.CityUnitedPercent | noel.py:262-298 | The 3-way home-win percentage for these records is 146.2/3.3653125, which is about 43.4. |
| History.CityUnitedHomeWin | noel.py:219-298 | The whole analysis of that selection succeeds with that percentage. |
| History.CityUnitedOver | noel.py:292-298 | As written, the Over bet on that selection reports 18.0665%, the Under chance for 4.096675 expected goals. |
| History.LoadHistory | noel.py:319-325 | A missing history file gives the empty history. Otherwise the stored records are used. |
| History.MirrorIndex | noel.py:359 | The mirrored index is within the history. |
| History.MirrorIsInvolution | noel.py:359 | Mirroring twice gives the row back. |
| History.MirrorFixedPoint | noel.py:359 | A row is its own mirror exactly when it is the middle row of an odd-length history. |
| History.Amended | noel.py:356-362 | Amending as written keeps the length. It sets the result of the mirrored record and leaves every other record unchanged. |
| History.AmendMissesSelectedRow | noel.py:334-362 | The table shows row k as history[k]. The selected row gets the text exactly when it is the middle row or already had that text. Otherwise it is untouched. |
| History.AmendCounterexample | noel.py:356-362 | Selecting the newest of two pending records amends the older one, and the newest stays pending. |
| History.AmendSelectedHitsRow | noel.py:356-362 | The corrected amendment sets the selected record's result and keeps all its other fields. It keeps the length and every other record. |
| History.AmendCheck | noel.py:345-353 | No selection is refused first. An empty text or the placeholder is refused next. Anything else is accepted. |
| History.Analyser.constructor | noel.py:91 | The history starts as loaded from storage. |
| History.Analyser.SaveToHistory | noel.py:313-315 | The record is inserted at the front, and the older records follow in order. |
| History.Analyser.RunAnalysis | noel.py:219-310 | The outcome is the analysis. On success the history is the new record (label "home vs away", result "Pending") followed by the old history. On any error the history is unchanged. |
| History.Analyser.AddActualResult | noel.py:343-362 | The refusals come in the code's order and leave the history unchanged. Otherwise exactly the mirrored record's result is set. |
| HexEncoding.HexDigit | mina.cs:209 | A nibble becomes one lower-case hex character. |
| HexEncoding.HexAppend | mina.cs:207-210 | Appending a byte appends its two digits. |
| HexEncoding.HexEncode | mina.cs:206-211 | The builder loop produces the hex text of the bytes. |
| HexEncoding.HexShape | mina.cs:207-210 | The text has length 2·n and uses only 0-9a-f. Positions 2j and 2j+1 hold the high and low nibble of byte j. |
| HexEncoding.HexRoundTrip | mina.cs:207-211 | Decoding the text gives the bytes back. |
| HexEncoding.HexInjective | mina.cs:207-211 | Different digests never share a text. |
| DuplicateActions.UpperChar | mina.cs:114 | Upper-casing maps a-z down by 32 and the long s to S, and leaves the other characters as they are. |
| DuplicateActions.Upper | mina.cs:114 | Upper-casing is applied character by character and keeps the length. |
| DuplicateActions.ChoosesOneLetter | mina.cs:114-130 | A line chooses D or R exactly when it is that letter in either case. It chooses S exactly for "S", "s" or the long s. |
| DuplicateActions.RenameFile | mina.cs:160-191 | A rename is refused for a null or blank name and for an existing target. It succeeds exactly when none of these holds and the move completes. An exception other than an IOException from the move escapes exactly when the checks pass and the move throws it. |
| DuplicateActions.Prompt | mina.cs:111-135 | A finished prompt has consumed at least one line and stays within the input. |
| DuplicateActions.DeleteOrSkipEndsAtOnce | mina.cs:116-130 | "S" ends the prompt after one line. "D" ends it after one line too, unless the delete throws something other than an IOException, which escapes. |
| DuplicateActions.InvalidChoiceReprompts | mina.cs:131-133 | Any other line restarts the prompt at the next line. |
| DuplicateActions.RenamedOnlyOnSuccess | mina.cs:121-127 | A prompt that ends in a rename has passed every rename check for that name. |
| DuplicateActions.RenameEndsAfterName | mina.cs:121-125 | "R" followed by a name whose rename succeeds ends the prompt with that rename on the line after the name. |
| DuplicateActions.RefusedRenameReprompts | mina.cs:162-189 | A blank name, a taken target or a move that fails with an IOException sends the prompt back for a new choice after the name line. |
| DuplicateActions.EscapesOnlyFromFileAction | mina.cs:142-190 | When a prompt lets an exception escape, some line at or after its start chooses a delete or a rename whose file action throws something other than an IOException. |
| DuplicateActions.RenameThrowsEscapes | mina.cs:121-122 | "R" followed by a name whose move throws something other than an IOException lets that exception escape the prompt. |
| DuplicateActions.ExhaustedInputHangs | mina.cs:111-116 | With no input left the prompt never ends. |
| DuplicateActions.ProcessDuplicateFile | mina.cs:107-136 | The while loop ends exactly as the prompt specification does, at the same cursor, hanging or letting an exception escape in the same cases. |
| DuplicateScanner.BucketMapStep | mina.cs:58-66 | Hashing one more file appends its path to its digest's bucket, or creates that bucket with the path alone. A failed file changes nothing. |
| DuplicateScanner.KeyOrderStep | mina.cs:58-66 | A digest joins the key order when it is first seen. |
| DuplicateScanner.GroupByHash | mina.cs:51-72 | The loop aborts exactly when some hashing fails with an exception other than an I/O error. Otherwise it yields the insertion-ordered keys and each key's bucket. |
| DuplicateScanner.BucketsNonEmpty | mina.cs:59-66 | A key is present exactly when its bucket is not empty. |
| DuplicateScanner.KeyOrderExact | mina.cs:44-66 | The keys are distinct, and the key order lists exactly the keys. |
| DuplicateScanner.BucketMembership | mina.cs:51-71 | A path is in a bucket exactly when a file with that path was hashed to that key. |
| DuplicateScanner.BucketDistinct | mina.cs:51-66 | With distinct paths, no bucket lists a path twice. |
| DuplicateScanner.ExactlyOneBucket | mina.cs:51-71 | With distinct paths, a hashed file is in the bucket of its digest and in no other, and a file that failed is in none. |
| DuplicateScanner.BucketSizesAddUp | mina.cs:44-66 | The bucket sizes add up to the number of hashed files. |
| DuplicateScanner.Duplicates | mina.cs:77 | The filter keeps exactly the entries whose bucket holds more than one file. |
| DuplicateScanner.DuplicateSets | mina.cs:77 | A duplicate set is a digest with its bucket, for exactly the digests whose bucket holds two or more files. |
| DuplicateScanner.KeptFileNeverProcessed | mina.cs:94-99 | With distinct paths, the first file of a set is never offered to the prompt. |
| DuplicateScanner.RunPrompts | mina.cs:96-99 | The prompts handle a prefix of the files in order. The run neither hangs nor lets an exception escape exactly when every file is handled. |
| DuplicateScanner.ProcessDuplicateSets | mina.cs:88-100 | The nested loops prompt for every file of every set except its first, in order, and stop at a hang or an escaping exception. If neither happens, the handled files are exactly those. |
| DuplicateScanner.FindAndProcessDuplicates | mina.cs:41-101 | A fatal hashing failure aborts the scan before any prompt. Otherwise it reports no duplicates exactly when the filter is empty. It aborts exactly when a file action lets an exception escape, keeping the actions done before. Otherwise it processes exactly the duplicate sets. |

## Left out

- The tkinter window, its widgets, message boxes and the Treeview filling loop are
  not modelled. The model keeps only the fact that the table shows the history in
  storage order.
- Reading and writing the JSON history file is not modelled, apart from "a missing
  file loads as an empty history".
- The clock is an input: the record date is an opaque string argument.
- Floating-point arithmetic: the formulas are computed over exact reals. Results
  that depend on binary rounding are not captured.
- History.Analyser.RunAnalysis: stores the percentage as an exact real rather than
  as the one-decimal text the code writes, because float formatting is not modelled.
- The info-panel text of run_analysis is not modelled; it is display only.
- Directory enumeration, SHA-256, File.Delete, File.Move, File.Exists and all
  console output in the scanner are inputs or are left out. Path.GetDirectoryName
  and Path.Combine are folded into the Disk functions, which take the file and the
  new name.
- DuplicateActions.RenameFile: the Disk answers are fixed functions of the file and
  the name. They do not follow files that earlier actions deleted or renamed.
- DuplicateActions.UpperChar: covers only the characters whose upper case can be
  D, R or S. Those are the only ones that decide a choice.
- A File.Delete that fails with an IOException prints an error and still ends the
  prompt, and the model records the action as Deleted. Any other exception from
  File.Delete or File.Move is caught only in Main, so the model ends the scan as
  Aborted, keeping the actions done before it.
- The start-up check that the directory exists, and the message Main prints for an
  exception, are not modelled. A fatal hashing failure or an escaping file-action
  exception is modelled as an aborted scan.
- DuplicateScanner.GroupByHash: takes the enumeration order of the .NET Dictionary
  to be the order in which keys were first added (`KeyOrder`). .NET leaves that
  order undefined, and it decides the order in which the sets are prompted.
- A prompt that reads past the end of the console input never ends. This is
  modelled as a Hung outcome, after which no further file is processed.

## Findings

| source | as written | input that shows it | evidently intended | confidence | as-written member | corrected member |
|---|---|---|---|---|---|---|
| noel.py:295-296 | The over/under branch tests the bare words "Over" and "Under". Both labels contain both words, inside "Over/Under", so the later "Under" test always wins. | Bet "Over/Under 3.0 (Over)" with 1.0 expected goals yields 80% instead of 20%. | Over = expected goals / 5 and Under = 1 − that, chosen by the option in parentheses. | not executed | Estimator.OverBetGetsUnderChance | Estimator.OverUnderComplement |
| noel.py:359 | add_actual_result mirrors the selected row index, but the table is filled in storage order (lines 334-341), so the record changed is the mirror of the one selected. | History [newer, older], selected row 0 ("newer") with text "Home Win": "older" is amended and "newer" stays Pending. | The selected record itself is amended. | not executed | History.AmendMissesSelectedRow | History.AmendSelectedHitsRow |

The analysis and the ledger class follow the code as written: the over/under
branch uses the bare-word test, and the amendment uses the mirrored index. The
corrected definitions sit beside them: `Estimator.OverUnder` with
`Estimator.OverUnderComplement`, and `History.AmendSelected` with
`History.AmendSelectedHitsRow`.
