# Hate-speech dashboard: the logic behind the components

This project models the small amount of logic in a React dashboard for hate-speech detection:

- **Detector view.** A heuristic classifier turns a text into a verdict, a confidence score, a category and an explanation. It looks for 12 keywords, measures the share of capital letters and counts exclamation marks. The Analyze button first rejects blank input and then rejects input while the model loads. Each finished analysis puts a shortened record at the head of a "Recent Analyses" list that holds at most five entries.
- **Page.** The model loads on an interval timer. Each tick raises the accuracy by 2.5 points until a tick finds it at 89.5 or more. That tick clamps it to 89.5 and sets the ready flag, which then stays set.
- **Training simulator.** It has Start, Pause and Reset buttons and an interval that advances the epoch (up to 50) and the progress bar (by 2, up to 100). A model choice selects the accuracy figure that is shown.
- **Data pipeline.** A Run button starts an interval that moves a progress bar by 5 until it reaches 100.

Modules:

- `Classifier` (`classifier.dfy`) holds the pure verdict.
- `ClassifierExamples` (`classifier_examples.dfy`) classifies three of the five example texts the detector offers, and one text that reaches the Aggressive Tone branch.
- `Detector` (`detector.dfy`) holds the input gate, the history and the component class.
- `Readiness` (`readiness.dfy`) holds the loading ramp.
- `Training` (`training.dfy`) holds the training simulator.
- `Pipeline` (`pipeline.dfy`) holds the data pipeline.
- `Wrappers` (`wrappers.dfy`) holds `Option`.

The three timer-driven components (loading, training, pipeline) follow one pattern:

- A datatype holds its state, and pure step functions on it form the specification.
- A class holds the same fields. Its methods ensure `State() == Step(old(State()))` and keep an invariant.
- The timer's ticks are explicit `Tick()` methods. Each returns whether that tick clears the interval.
- A driver method runs the interval until it clears itself and counts the ticks: 37 for loading, 51 for training, 21 for the pipeline.

The detector component `Detector.HateSpeechDetector` is different: it has no interval timer, so it has no state datatype and no driver. Its methods are specified directly by `Gate`, `Classify` and `Prepend`.

Representation choices:

- Percentages that move in half steps are counted in tenths: accuracy 89.5 is `895`.
- Timestamps are an opaque `Instant` that the caller supplies.

Behaviour of the code worth knowing:

- The loading ramp is not monotone. Tick 36 shows 90.0 (src/pages/Index.tsx:49). Tick 37 drops the accuracy to 89.5 and sets the ready flag (src/pages/Index.tsx:40-47), while the toast at src/pages/Index.tsx:45 announces 89.5%. `Readiness.RampSchedule` and `Readiness.RampBounds` state this behaviour.
- `analyzeText` is total: an empty text is Safe Content with confidence 85. The gate rejects an empty text before it reaches the verdict, but `Classifier.Classify` is total in the same way.
- The confidence always lies in [15, 95].
- Pause and Reset leave the training interval live (src/components/ModelTraining.tsx:97-105 never clear it). With the flag off, each tick still adds an epoch and two points of progress until epoch 50. `Training.TicksAfterPause` and `Training.TicksAfterReset` state this behaviour.

## Model

| member | source | states |
|---|---|---|
| `Classifier.Classify` | src/components/HateSpeechDetector.tsx:40-68 | the category is Safe Content exactly when the verdict is not hate speech; the explanation is the fixed harmful or safe message matching the verdict; the confidence is a whole number in [15, 95] |
| `Classifier.IncludesIffOccurs` | src/components/HateSpeechDetector.tsx:46 | the `includes` search finds a keyword exactly when the keyword sits at some index of the text |
| `Classifier.KeywordTestIsSubstring` | src/components/HateSpeechDetector.tsx:45-46 | the keyword test holds exactly when one of the 12 keywords occurs as a substring of the lower-cased text |
| `Classifier.CountUpper` | src/components/HateSpeechDetector.tsx:47 | the capital count never exceeds the length; it is zero exactly when the text has no A-Z letter |
| `Classifier.CountUpperAppend` | src/components/HateSpeechDetector.tsx:47 | the capital count of two texts joined together is the sum of their counts |
| `Classifier.CountUpperAllUpper` | src/components/HateSpeechDetector.tsx:47 | a text made only of capitals has as many capitals as characters |
| `Classifier.CountChar` | src/components/HateSpeechDetector.tsx:48 | the `!` count never exceeds the length; it is zero exactly when the text has no `!` |
| `Classifier.CountCharIsMultiplicity` | src/components/HateSpeechDetector.tsx:48 | the `!` count is exactly the number of times `!` occurs in the text (its multiplicity), so the `> 2` test counts every `!` |
| `Classifier.LabelsDistinguish` | src/components/HateSpeechDetector.tsx:55-57 | the three categories carry three distinct labels ("Offensive Language", "Aggressive Tone", "Safe Content"), so the label shown tells the category |
| `Classifier.SafeConfidence` | src/components/HateSpeechDetector.tsx:53 | the safe score lies in [15, 85]; it is 15 from 700 characters on; below 700 it is 85 − len/10 rounded to the nearest whole number, halves up |
| `Classifier.SafeConfidenceNonIncreasing` | src/components/HateSpeechDetector.tsx:53 | the safe score never grows with the text length |
| `Classifier.ClassifyVerdict` | src/components/HateSpeechDetector.tsx:46-57 | hate speech exactly when a keyword occurs, or when capitals exceed half the length and there are more than two `!`; Offensive Language exactly when a keyword occurs; Aggressive Tone exactly when there is no keyword but both other signals hold |
| `Classifier.ClassifyConfidence` | src/components/HateSpeechDetector.tsx:51-53 | Offensive Language scores 90, or 95 with excessive capitals; Aggressive Tone always scores 70; Safe Content scores within [15, 85], rounding 85 − len/10 |
| `Classifier.SafeConfidenceByLength` | src/components/HateSpeechDetector.tsx:53 | of two texts judged safe, the longer one never scores higher |
| `Classifier.OffensiveWhenKeywordAt` | src/components/HateSpeechDetector.tsx:46-56 | a keyword anywhere in the lower-cased text makes the text Offensive Language, scored 95 with excessive capitals and 90 without |
| `Classifier.SafeWhen` | src/components/HateSpeechDetector.tsx:50-57 | with no keyword and no excessive capitals, the text is Safe Content whatever its `!` count, scored by its length |
| `Classifier.MissingLetter` | src/components/HateSpeechDetector.tsx:46 | a keyword that contains a letter missing from the text does not occur in the text |
| `Classifier.StudiedIsOffensive` | src/components/HateSpeechDetector.tsx:41-46 | matching is by substring: "studied" is Offensive Language, scored 90, because it contains "die" |
| `ClassifierExamples.ExampleInsult` | src/components/HateSpeechDetector.tsx:113 | "You are so stupid and worthless!" is Offensive Language with confidence 90 |
| `ClassifierExamples.FifteenCapitalsInShouting` | src/components/HateSpeechDetector.tsx:47 | "I HATE THIS SO MUCH!!!" has 15 capitals among its 22 characters |
| `ClassifierExamples.ExampleShouting` | src/components/HateSpeechDetector.tsx:114 | "I HATE THIS SO MUCH!!!" is hate speech and Offensive Language, because the keyword test ignores case; its capitals are in the majority, so it scores 95 |
| `ClassifierExamples.ExampleSafe` | src/components/HateSpeechDetector.tsx:111 | "I love this new technology!" is Safe Content with confidence 82 |
| `ClassifierExamples.ExampleAggressive` | src/components/HateSpeechDetector.tsx:47-57 | "AAAA!!!" has no keyword, 4 capitals in 7 characters and three `!`, so it is Aggressive Tone, scored 70 |
| `Detector.TrimEmptyIffBlank` | src/components/HateSpeechDetector.tsx:89 | `trim()` yields the empty text exactly when every character is whitespace |
| `Detector.Gate` | src/components/HateSpeechDetector.tsx:88-107 | blank input is rejected whether or not the model is ready; non-blank input is rejected while the model loads; otherwise the analysis starts |
| `Detector.Snippet` | src/components/HateSpeechDetector.tsx:74 | a text of at most 50 characters is kept whole; a longer text becomes its first 50 characters followed by "..." |
| `Detector.Prepend` | src/components/HateSpeechDetector.tsx:73-78 | the new history has length min(old + 1, 5); the new record comes first, then the earlier records in their order |
| `Detector.HistoryKeepsLastFive` | src/components/HateSpeechDetector.tsx:73-78 | after any sequence of analyses, the history holds the last min(n, 5) records, most recent first |
| `Detector.RecordOfVerdict` | src/components/HateSpeechDetector.tsx:74-77 | a history record carries the verdict's flag, score and timestamp, and is well formed: score in [15, 95], text at most 53 characters |
| `Detector.PrependKeepsWellFormed` | src/components/HateSpeechDetector.tsx:73-78 | adding a well-formed record keeps the history within five well-formed records |
| `Detector.HateSpeechDetector.constructor` | src/components/HateSpeechDetector.tsx:17-30 | the component starts idle, with no result and an empty history |
| `Detector.HateSpeechDetector.HandleAnalyze` | src/components/HateSpeechDetector.tsx:88-108 | the outcome is the gate's decision; only an accepted input raises the analysing flag; the result and history are untouched |
| `Detector.HateSpeechDetector.CompleteAnalysis` | src/components/HateSpeechDetector.tsx:39-80 | the result becomes the verdict on the text; the history becomes the new record prepended to the first four old ones; the analysing flag drops; the history stays well formed |
| `Readiness.Advance` | src/pages/Index.tsx:39-50 | below 89.5 a tick adds exactly 2.5 and keeps the flag; at 89.5 or more it sets 89.5 and ready; ready never turns false; the invariant (a multiple of 2.5 up to 90 while loading, exactly 89.5 once ready) is kept; once ready, a tick changes nothing |
| `Readiness.RampSchedule` | src/pages/Index.tsx:37-51 | after n ≤ 36 ticks the accuracy is 2.5·n and the model is not ready; from tick 37 on it is 89.5 and ready |
| `Readiness.RampBounds` | src/pages/Index.tsx:39-50 | the model is ready exactly from tick 37; the accuracy never exceeds 90 and equals 90 only after tick 36; every reached state satisfies the invariant |
| `Readiness.ModelLoader.constructor` | src/pages/Index.tsx:31-37 | the load starts at accuracy 0, not ready |
| `Readiness.ModelLoader.Tick` | src/pages/Index.tsx:38-51 | a tick applies `Advance` and reports whether it cleared the interval |
| `Readiness.LoadModel` | src/pages/Index.tsx:36-52 | the loading interval fires exactly 37 times and leaves the model ready at 89.5 |
| `Training.Start` | src/components/ModelTraining.tsx:73-76 | starting sets the training flag and resets epoch and progress to 0 |
| `Training.Stop` | src/components/ModelTraining.tsx:97-99 | pausing clears only the training flag; epoch and progress are unchanged |
| `Training.Reset` | src/components/ModelTraining.tsx:101-105 | resetting gives flag off, epoch 0 and progress 0 |
| `Training.Step` | src/components/ModelTraining.tsx:78-94 | keeps the invariant epoch ∈ [0, 50] and progress = 2·epoch, so progress is even and within [0, 100]; below epoch 50 a tick adds 1 to the epoch and 2 to the progress; at epoch 50 it leaves 50 and 100 and clears the flag |
| `Training.TrainingSchedule` | src/components/ModelTraining.tsx:73-94 | n ≤ 50 ticks after Start, the epoch is n, the progress is 2n and training is on; after more ticks, epoch 50, progress 100 and training off |
| `Training.CountsOnWithFlagOff` | src/components/ModelTraining.tsx:78-94 | from any valid state with the flag off, n ticks give epoch min(e + n, 50) and twice that as progress, and the flag stays off |
| `Training.TicksAfterPause` | src/components/ModelTraining.tsx:78-99 | after Pause, a live interval keeps moving epoch and progress to 50 and 100 while the flag stays off |
| `Training.TicksAfterReset` | src/components/ModelTraining.tsx:78-105 | after Reset, a live interval counts the epochs from 0 up to 50 again, with the flag off |
| `Training.Find` | src/components/ModelTraining.tsx:132 | the lookup finds an entry exactly when some entry has the id, and it returns the first such entry |
| `Training.ModelTraining.BestAccuracy` | src/components/ModelTraining.tsx:132 | in every valid state the selected model is in the table, so the best-accuracy lookup succeeds with that model's accuracy |
| `Training.ModelTraining.constructor` | src/components/ModelTraining.tsx:21-24 | the component starts not training, at epoch 0 and progress 0, with "ensemble" selected |
| `Training.ModelTraining.SelectModel` | src/components/ModelTraining.tsx:180-188 | a card click selects that card's model id, which is one of the four ids |
| `Training.ModelTraining.StartTraining` | src/components/ModelTraining.tsx:73-76 | applies `Start` and keeps the invariant |
| `Training.ModelTraining.StopTraining` | src/components/ModelTraining.tsx:97-99 | applies `Stop` and keeps the invariant |
| `Training.ModelTraining.ResetTraining` | src/components/ModelTraining.tsx:101-105 | applies `Reset` and keeps the invariant |
| `Training.ModelTraining.Tick` | src/components/ModelTraining.tsx:78-94 | applies `Step`, keeps the invariant and reports whether the tick cleared its interval |
| `Training.TrainToCompletion` | src/components/ModelTraining.tsx:73-95 | a training interval fires exactly 51 times and ends at epoch 50, progress 100, training off |
| `Pipeline.Run` | src/components/DataPipeline.tsx:55-58 | running sets the running flag and resets progress and pipeline step to 0 |
| `Pipeline.Step` | src/components/DataPipeline.tsx:61-68 | below 100 a tick adds exactly 5; at 100 or more it leaves 100 and clears the running flag; the pipeline step never changes; progress stays a multiple of 5 in [0, 100] |
| `Pipeline.StaysComplete` | src/components/DataPipeline.tsx:62-66 | after a tick that found the bar full, any number of further ticks leave progress at 100 and the flag off |
| `Pipeline.PipelineSchedule` | src/components/DataPipeline.tsx:55-70 | n ≤ 20 ticks after Run, the progress is 5n and the pipeline is running; after more ticks, 100 and not running; the step stays 0 |
| `Pipeline.DataPipeline.constructor` | src/components/DataPipeline.tsx:20-22 | the pipeline starts at step 0, not running, progress 0 |
| `Pipeline.DataPipeline.RunPipeline` | src/components/DataPipeline.tsx:55-58 | applies `Run` |
| `Pipeline.DataPipeline.Tick` | src/components/DataPipeline.tsx:60-69 | applies `Step`, keeps the invariant and reports whether the tick cleared the interval |
| `Pipeline.RunToCompletion` | src/components/DataPipeline.tsx:55-70 | the pipeline interval fires exactly 21 times and ends at 100, not running, step 0 |

## Left out

- Rendering is not modelled: markup, styling, icons, tabs, progress bars, badges and `toast` notifications are presentation only.
- Timers are not modelled: the 1500 ms delay, `setInterval` and `clearInterval`. Each tick is an explicit `Tick()` call, and the driver methods stand for an interval that runs until it clears itself.
- Neither Pause nor Reset clears the training interval, so a Start after either leaves two training intervals live. Their interleaving is timer concurrency and is not modelled. `Training.ModelTraining.Tick` may be called in any valid state, and every tick keeps the invariant. What one live interval does after Pause or Reset is stated by `Training.TicksAfterPause` and `Training.TicksAfterReset`.
- The "analysing" window is modelled as two calls: `HandleAnalyze` raises the flag, and `CompleteAnalysis` runs after the delay. The caller passes the accepted text to the second call.
- The button `disabled` attributes are not modelled, so the methods can be called at any time.
- The 1000-character `maxLength` of the input box is not modelled.
- Text is a sequence of Unicode scalar values, and only ASCII letters are lower-cased. JavaScript's `toLowerCase` also folds non-ASCII letters, and `length` and `substring` count UTF-16 code units. This affects `Classifier.Classify` (the length in the capital ratio and in the safe score) and `Detector.Snippet`. For example, a text of 30 emoji is 60 code units: the source cuts it to 25 emoji plus "...", while the model keeps it whole.
- Floating point is replaced by exact arithmetic. The capital ratio `count / length > 0.5` is `2 * count > length`. The safe score `Math.round(Math.max(15, 85 - length * 0.1))` is computed in tenths. IEEE rounding of `length * 0.1` at .5 boundaries is not modelled.
- The example texts "This is really helpful, thank you!" and "Have a great day everyone!" (src/components/HateSpeechDetector.tsx:112, 115) have no lemma of their own. Ruling out every keyword in them needs more than a missing letter, because the first contains every letter of "hate", "kill", "loser" and "trash". `Classifier.SafeWhen` covers them in general.
- `new Date()` becomes the caller-supplied `Instant`.
- Only the ids and accuracies of the static model table are modelled. The other table fields, the hyperparameter and feature lists, the pipeline step cards and `dataStats` are display data.
- `src/components/ModelMetrics.tsx` (floating-point metric ratios on constants, formatted with `toFixed`) and `src/components/MethodologyFlow.tsx` (static content) are not part of this model.
