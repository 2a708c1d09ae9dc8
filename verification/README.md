# Verified model of ActQuant's allocation, parsing and conversion code

ActQuant is a llama.cpp fork that chooses a quantization type for every tensor of a model from
sensitivity scores, converts checkpoints to GGUF and serves them. This project models, in Dafny, the
parts of it whose correctness is not visible in any single function, and proves what those parts keep
over every input, every key sequence or every run.

`dafny verify dfyconfig.toml` checks the whole project.

| files | what they model |
|---|---|
| `QuantMenu`, `Allocator`, `AllocatorLaws`, `AllocatorRepush`, `AllocatorRule`, `AllocatorScores`, `AllocatorPairs`, `AllocatorTotals`, `AllocatorLoop` | the greedy mixed-precision allocator of `tools/hsic/allocate.py` |
| `Text`, `ChatReasoning`, `ChatParser`, `ChatRendering`, `ChatStreaming`, `ChatEnding` | extraction of reasoning from a growing model output, what a streaming client receives and what a finished parse loses |
| `JsonCleaner`, `JsonLaws`, `JsonPaths`, `JsonCuts`, `JsonWalker` | removal of healing markers from partial JSON |
| `Bits`, `Base64`, `Base64Laws`, `Base64Text` | the base64 codec (sections 4 and 5 of RFC 4648) |
| `Bpe`, `Experts`, `ExpertLaws`, `Layout` | merge recovery, expert gathering and row layouts of the checkpoint converter |
| `Utf8`, `Console`, `ConsoleAnswers` | the line editor and its simple counterpart (UTF-8 as in section 3 of RFC 3629) |
| `Strings`, `Wrap`, `Lcs`, `Escapes`, `ControlVectors` | split, join and replace, word wrap, common runs of tokens, escapes, control vectors |

Code that changes variables step by step is a method (or a class with methods) proved against a
specification function or a stated property; the laws are then proved about that specification. For
each of them some laws fix the answer in terms of its input alone: sums by their additivity, alphabets,
keys and escapes written out, texts before the first marker.

## Where the code and its promises differ

These are results of the model; each comes with an input and with the exact condition under which the
promise is kept (for the JSON cleaner: exact on all trees but those named below).

- The allocator's comment says that it re-pushes the other tensors of a layer because their values
  changed, and always takes the upgrade of highest improvement per bit. An old entry always has at
  least the value of the new one, so the re-pushed entries never decide anything
  (`AllocatorRepush.RepushHasNoEffect`), and the documented rule fails on a three-tensor problem
  (`AllocatorRule.GreedyRuleFails`). On every menu of three types or more with diminishing returns, as
  the noise formula gives, the rule holds for all tensor sizes and targets if and only if no layer
  has two tensors of positive score (`AllocatorScores.GreedyIffSeparate`). On a menu of two types it
  does if and only if two positive scores share a layer only when there is no third, or all share that
  layer and are equal (`AllocatorPairs.GreedyIffCalm`). It also holds over a whole run whose upgrading
  pops all carry a current value (`AllocatorRule.UpToDateRunIsGreedy`).
- The allocator reports an objective of 0 when the base types already reach the target. The true
  objective is 0 exactly when no score is positive (`AllocatorLaws.ObjectiveZero`; a problem where it is
  not: `AllocatorLoop.ReportedZeroIsNotTrue`).
- The menu drops the base type when the largest type has equally many bits and stands earlier in the
  catalogue, or when it has fewer bits; these are the only cases (`QuantMenu.BaseIsOffered`; with base
  Q3_K and largest IQ3_S: `BaseIsDropped`).
- What the reasoning parser itself adds only ever grows, but the whole message can shrink: blanks
  already shown as content are withdrawn when a partial start tag follows them. This is the only
  case (`ChatReasoning.ParseGrows`). The loop that would re-parse growing prefixes and append the
  differences is not in the repository; assuming one, the client then holds the blanks twice
  (`ChatStreaming.BlankSentTwice`, exactly when: `StreamIsExact`). With a loop that skips empty messages
  the client holds the last message that is not empty; that is the last one unless it is empty and an
  earlier one was not (`SkippingIsExact`; such a stream: `BlankKept`).
- A finished parse drops text that might have become a tag (`ChatEnding.LoneBracketIsLost`). Only an
  unfinished tag at the very end of the input is ever lost (`LostIsUnfinishedTag`); every other visible
  character outside the tags is reported, in order, in every mode (`MessageKeepsText`).
- `try_find_literal` looks for the longest partial match in the whole input, so it can miss a partial
  match at the cursor (`ChatParser.MissedPartial`; exactly when: `MissedIff`).
- In the JSON cleaner the break on a marked string member skips the pop of the shared path, so later
  entries can be judged by a wrong path (`JsonLaws.StalePath`). Such a tree arises when a key is
  repeated: the healed value takes the place of the first occurrence, before later members. On all
  trees in which no array goes on after an item that left a key behind, the path can be trusted for all
  path lists if and only if nothing looks it up after a key was left behind
  (`JsonPaths.PathsTrueIffSafe`). On the other trees that is enough (`SafeAgrees`) but not necessary
  (`ArrayItemsMayNotTell`).
- A JSON string that is itself listed as content is emptied when nothing was healed and there are
  argument paths, because an empty marker is found at its start (`JsonCuts.UnhealedContentIsEmptied`, with
  the exact condition).
- `common_lcs` is described as a longest common subsequence; it computes the longest common
  contiguous run, which is equal if and only if some longest common subsequence is contiguous in both
  (`Lcs.RunAgainstSubsequence`; a difference: `NotASubsequence`).
- The escape `\x` followed by a blank or a sign and one digit is taken as a byte
  (`Escapes.SignedDigit`; exactly which pairs, and as which byte: `TakenAsByte`).
- The two line readers differ on the text " /" and at the end of the stream, nowhere else on plain
  text (`Console.ReadersAgree`). The editor's two stacks are in step at every loop head if and
  only if no key above 0x10FFFF is typed as text (`InStepIffNoStray`; what goes wrong:
  `StrayKeyTakesLetter`).

## Model

| member | source | states |
|---|---|---|
| `QuantMenu.GroupByBpw` | tools/hsic/allocate.py:90-92 | each bit width maps to exactly its types, in catalogue order |
| `QuantMenu.Deduplicate` | tools/hsic/allocate.py:88-102 | strictly increasing bit widths, every width of the input present once, each entry the one to choose (first kept name, else preferred family) |
| `QuantMenu.EntryIsFirst` | tools/hsic/allocate.py:94-101 | of the types with equal bits the menu holds the first in the catalogue whose name is kept, or without one the first of the most preferred family |
| `QuantMenu.BaseIsOffered` | tools/hsic/allocate.py:570-575 | the base type is in the menu, then first, if and only if it has fewer bits than the largest type, or equally many and stands no later in the catalogue |
| `QuantMenu.BaseIsDropped` | tools/hsic/allocate.py:570-575 | with base Q3_K and largest IQ3_S, equal in bits, the base type is not in the menu |
| `QuantMenu.MenuIsValid` | tools/hsic/allocate.py:68-69 | with noise falling strictly as bits grow, such a menu meets the allocator's assumptions |
| `Allocator.Best` | tools/hsic/allocate.py:292-292 | the popped entry has the highest value and is the earliest pushed of those |
| `Allocator.StepShrinks` | tools/hsic/allocate.py:291-316 | every iteration lowers the number of possible upgrades, or keeps the assignment and shortens the queue: the loop ends although it pushes |
| `AllocatorLaws.StartIsSound` | tools/hsic/allocate.py:245-288 | at the start bits and layer errors are exact and every affordable upgrade is queued |
| `AllocatorLaws.StepLedger` | tools/hsic/allocate.py:291-316 | each iteration keeps the running bit total and every layer error equal to the sums over the assignment, and keeps the budget |
| `AllocatorLaws.StepPending` | tools/hsic/allocate.py:291-316 | each iteration keeps every affordable next upgrade in the queue, although entries are dropped for good |
| `AllocatorLaws.RunIsSoundAndMaximal` | tools/hsic/allocate.py:290-316 | a whole run ends with exact totals, within budget, and with no affordable upgrade left |
| `AllocatorLaws.RunLowersObjective` | tools/hsic/allocate.py:290-320 | a run never ends with a larger sum of squared layer errors than it started with |
| `AllocatorLaws.ValueIsDropPerBit` | tools/hsic/allocate.py:273-281 | the value of an upgrade times the bits it adds is exactly what it takes off the sum of squared layer errors |
| `AllocatorLaws.ObjectiveZero` | tools/hsic/allocate.py:249-250 | the sum of squared layer errors is 0 if and only if no tensor has a positive score |
| `AllocatorTotals.TotalIsSum` | tools/hsic/allocate.py:238-238 | the total of one tensor is its parameter count, the total of two lists put together is the sum of their totals |
| `AllocatorTotals.BitsAreByType` | tools/hsic/allocate.py:247-311 | the bits of any assignment are, summed type by type, the width of the type times the parameters kept in it |
| `AllocatorTotals.AverageOfOneType` | tools/hsic/allocate.py:318-319 | tensors all kept in one type have the bits per weight of that type |
| `AllocatorTotals.ErrorsAreByType` | tools/hsic/allocate.py:242-261 | the error of a layer is, summed type by type, the noise of the type times the positive scores of the layer kept in it |
| `AllocatorTotals.ObjectiveOfTwoLayers` | tools/hsic/allocate.py:320-320 | on a problem of two layers and a negative score the objective is 2 squared plus 1 squared |
| `AllocatorLoop.ReportedZeroIsNotTrue` | tools/hsic/allocate.py:249-250 | a problem for which 0 is reported and is not the objective |
| `AllocatorRepush.RepushSimulation` | tools/hsic/allocate.py:290-316 | from any state whose extra entries are dominated, the loop with re-pushes ends where the loop without them ends |
| `AllocatorRepush.RepushHasNoEffect` | tools/hsic/allocate.py:313-316 | on every problem, assignment, bits and layer errors are those of the loop without the re-push |
| `AllocatorRule.SeparateLayersAreGreedy` | tools/hsic/allocate.py:228-232 | with at most one positive score per layer every upgrade of the run has the highest improvement per bit, on every menu |
| `AllocatorRule.UpToDatePopPicksHighest` | tools/hsic/allocate.py:292-298 | in every state that simulates the loop without re-pushes, as all states of a run do, a pop whose stored value is current follows the documented rule, whatever else is out of date |
| `AllocatorRule.UpToDateRunIsGreedy` | tools/hsic/allocate.py:290-316 | a run from the start whose upgrading pops all carry a current value follows the documented rule at every pop |
| `AllocatorRule.GreedyRuleFails` | tools/hsic/allocate.py:228-232 | a valid problem whose run breaks the documented rule |
| `AllocatorScores.TrapBreaksRule` | tools/hsic/allocate.py:290-316 | whenever the second best tensor at the start keeps its old value, and after the first upgrade some upgrade is better than its new value, the second pop breaks the rule |
| `AllocatorScores.TrapFor` | tools/hsic/allocate.py:267-288 | for any two positive scores in one layer and any menu of diminishing returns there are sizes and a target that give such a situation |
| `AllocatorScores.GreedyIffSeparate` | tools/hsic/allocate.py:224-232 | on every menu of at least three types with diminishing returns: the rule holds for all sizes and targets if and only if no layer has two positive scores |
| `AllocatorScores.GreedyOnEveryMenu` | tools/hsic/allocate.py:224-232 | the rule holds for all menus, sizes and targets if and only if no layer has two positive scores |
| `AllocatorPairs.PopsHighestFirst` | tools/hsic/allocate.py:290-316 | on a menu of two types an upgrade that is popped has the highest value at the start of all that are affordable |
| `AllocatorPairs.CalmRunIsGreedy` | tools/hsic/allocate.py:228-232 | on a menu of two types calm scores keep the documented rule at every pop |
| `AllocatorPairs.PairTrap` | tools/hsic/allocate.py:267-288 | for any scores that are not calm there are sizes and a target that break it |
| `AllocatorPairs.GreedyIffCalm` | tools/hsic/allocate.py:224-232 | on every menu of two types: the rule holds for all sizes and targets if and only if two positive scores share a layer only when there is no third, or all share that layer and are equal |
| `AllocatorPairs.GreedyOnOneType` | tools/hsic/allocate.py:269-270 | on a menu of one type the rule always holds |
| `AllocatorLoop.BaseBits` | tools/hsic/allocate.py:247-247 | bits of the all-base assignment |
| `AllocatorLoop.BaseErrors` | tools/hsic/allocate.py:252-261 | the weighted noise of each layer under the base type, for exactly the layers present |
| `AllocatorLoop.FirstQueue` | tools/hsic/allocate.py:286-288 | the queue holding the first upgrade of every tensor |
| `AllocatorLoop.RepushLayer` | tools/hsic/allocate.py:313-316 | pushes the next upgrade of every other tensor of the layer, in order |
| `AllocatorLoop.PopAndUpgrade` | tools/hsic/allocate.py:291-316 | one loop iteration is one step of the model |
| `AllocatorLoop.GreedyLoop` | tools/hsic/allocate.py:286-316 | the loop ends in the state of the model's run |
| `AllocatorLoop.SumSquares` | tools/hsic/allocate.py:320-320 | the sum of squared errors over the layers |
| `AllocatorLoop.Optimize` | tools/hsic/allocate.py:252-322 | the assignment is within budget and maximal; the reported objective is the true one and no larger than at the start |
| `AllocatorLoop.AllocateBits` | tools/hsic/allocate.py:245-322 | base assignment with reported objective 0 when it reaches the target, else an optimized one; bits are exact |
| `AllocatorLoop.Allocate` | tools/hsic/allocate.py:218-322 | fails if and only if there is no tensor; bits per weight are reported exactly; if those of the base types reach the target nothing is upgraded and 0 is reported; otherwise they stay within the target, the next type of any tensor would lift them above it, and the reported objective is the true one |
| `Text.Find` | common/chat-parser.cpp:271-271 | the leftmost occurrence at or after a position, or none at all |
| `Text.PartialStop` | common/common.cpp:467-481 | the start of the longest suffix that is a non-empty prefix of the stop string, or none exists |
| `Text.FindPartialStop` | common/common.cpp:467-481 | the loop over the stop string's prefixes, with its last-character shortcut, finds exactly that start |
| `Text.SpacesAre` | common/common.cpp:413-416 | the six characters that count as blank |
| `Text.OccurrenceNotBefore` | common/common.cpp:467-481 | no continuation of the text creates an occurrence that starts before the text's end, except at a partial match |
| `Text.PartialShrinks` | common/common.cpp:467-481 | a partial match of an extension that starts inside the text was one of the text |
| `Text.FindStable` | common/chat-parser.cpp:271-271 | an occurrence found in a prefix is the one found in every extension |
| `Text.StripIs` | common/common.cpp:410-420 | strip is the piece between the first and last non-blank characters, and is determined by that |
| `Text.StripLoop` | common/common.cpp:410-420 | the two loops compute strip |
| `Text.StripMonotone` | common/common.cpp:410-420 | stripped text only grows as the text grows |
| `ChatReasoning.HandleGrows` | common/chat-parser.cpp:193-211 | content and reasoning added for a section only grow with its text and when it closes |
| `ChatReasoning.OpenEndHolds` | common/chat-parser.cpp:271-281 | the end taken for an unclosed section never lies past the end taken for it in any extension |
| `ChatReasoning.TurnsGrow` | common/chat-parser.cpp:265-314 | one turn of the loop on a prefix is the same turn on the extension, or its output is a prefix |
| `ChatReasoning.SectionsGrow` | common/chat-parser.cpp:265-314 | the whole loop's content and reasoning on a partial prefix are prefixes of those on any extension, partial or final |
| `ChatReasoning.ParseGrows` | common/chat-parser.cpp:171-315 | for all prefixes, settings and tags not both empty: added content and reasoning only grow; content plus unparsed rest grows if and only if no blank-to-partial-tag retraction occurs |
| `ChatParser.MsgParser.constructor` | common/chat-parser.cpp:16-28 | a parser at position 0 with an empty message |
| `ChatParser.MsgParser.ConsumeSpaces` | common/chat-parser.cpp:116-124 | moves to the first non-blank and says whether it moved |
| `ChatParser.MsgParser.TryConsumeLiteral` | common/chat-parser.cpp:126-139 | consumes the literal if and only if it stands at the position, else moves nothing |
| `ChatParser.MsgParser.TryFindLiteral` | common/chat-parser.cpp:141-163 | leftmost full hit, else on partial input the longest partial one at or after the position; moves to its end |
| `ChatParser.HitIs` | common/chat-parser.cpp:141-163 | a hit is the leftmost occurrence from the position on, or on partial input without one the longest partial match, up to the end; its prelude is the text before it |
| `ChatParser.PreludeGrows` | common/chat-parser.cpp:141-163 | the prelude of a hit on partial input is a prefix of the prelude of every later hit from the same position |
| `ChatParser.MissedIff` | common/chat-parser.cpp:141-163 | where the literal is or may become present, it goes unreported if and only if no occurrence is complete and some partial match starts before the position |
| `ChatParser.MissedPartial` | common/chat-parser.cpp:151-162 | an input on which a possible literal is not reported |
| `ChatParser.MsgParser.HandleReasoning` | common/chat-parser.cpp:193-211 | adds the stripped text as reasoning with any owed prefix, or between tags as content |
| `ChatParser.MsgParser.AfterEnd` | common/chat-parser.cpp:289-313 | what follows an end tag: another section, a partial start tag swallowing the rest, or the answer |
| `ChatParser.MsgParser.NextSection` | common/chat-parser.cpp:265-314 | one turn of the loop |
| `ChatParser.MsgParser.SectionLoop` | common/chat-parser.cpp:265-314 | the loop adds to the message what the section grammar yields and stops where it stops |
| `ChatParser.MsgParser.OpenReasoning` | common/chat-parser.cpp:253-258 | blanks before a start tag become content, then the sections are read |
| `ChatParser.MsgParser.TryParseReasoning` | common/chat-parser.cpp:171-315 | result, position, content and reasoning are those of the grammar, with the save and restore of the failing branches |
| `ChatParser.MsgParser.ConsumeRest` | common/chat-parser.cpp:317-321 | returns everything from the position and moves to the end |
| `ChatParser.MsgParser.ParseContentOnly` | common/chat.cpp:2866-2869 | the message is what reasoning extraction adds, followed by the rest as content |
| `ChatRendering.SectionsRead` | common/chat-parser.cpp:265-314 | the loop reads any number of rendered sections and stops exactly at the answer, in every mode |
| `ChatRendering.ExtractionUndoesRendering` | common/chat-parser.cpp:193-315 | parsing blanks, rendered sections and a clean answer adds the blanks and the stripped texts and stops exactly at the answer, in every mode |
| `ChatRendering.ForcedOpenUndoesRendering` | common/chat-parser.cpp:259-314 | forced open and without a start tag: blanks are dropped, the first text is stripped and reported without an opening literal, later sections as usual, and parsing stops exactly at the answer, in every mode |
| `ChatRendering.ForcedOpenExample` | common/chat-parser.cpp:259-314 | "a</think>b" gives reasoning "a" and leaves "b" |
| `ChatRendering.SectionInContent` | common/chat-parser.cpp:198-203 | reasoning in content stands stripped between its own tags, or between the two of Deepseek |
| `ChatStreaming.ReceivedSoFar` | common/chat.cpp:31-44 | for a chain of messages whose differences are appended: they equal the last message as long as nothing was taken back, and are longer afterwards; the exception is never thrown |
| `ChatStreaming.StringDiffIs` | common/chat.cpp:31-44 | the difference completes the last text when the current one extends it, is empty when it is shorter, and fails if and only if neither is a prefix of the other |
| `ChatStreaming.StreamIsExact` | common/chat.cpp:85-94 | under an assumed loop that parses every growing prefix and appends the differences: the reasoning is exact, and the message is exact if and only if no retraction occurred |
| `ChatStreaming.RetractedIsEmpty` | common/chat.cpp:2866-2869 | the message parsed at a retraction is wholly empty |
| `ChatStreaming.SkippingIsExact` | common/chat.h:44-46 | under an assumed loop that skips empty messages the client holds the last message that is not empty, which is the last one if and only if this is not empty or all are |
| `ChatStreaming.BlankKept` | common/chat.h:44-46 | a finished stream after which that client keeps a blank that the last message has taken back |
| `ChatEnding.TurnKeepsText` | common/chat-parser.cpp:265-314 | one turn of the section loop, in every mode, reports every visible character it passes except the text it holds back at the end |
| `ChatEnding.MessageKeepsText` | common/chat.cpp:2866-2869 | in every mode, forced open or not, reasoning and content carry every visible character outside the tags, in order, sections in content between their tags and reopened sections after their literal, except those of the lost text; so all of them if and only if nothing visible is lost |
| `ChatEnding.UnopenedMessage` | common/chat-parser.cpp:230-263 | without a section the input is the content, unless it is blank and forced open or is, after blanks, the beginning of a start tag: then there is no message |
| `ChatEnding.OffKeepsInput` | common/chat-parser.cpp:174-176 | with reasoning off the message is the input |
| `ChatEnding.LostIsUnfinishedTag` | common/chat-parser.cpp:248-281 | only the beginning of a start or end tag at the very end of the input is ever lost |
| `ChatEnding.LoneBracketIsLost` | common/chat-parser.cpp:248-251 | a finished input of one character that is lost altogether |
| `ChatStreaming.BlankSentTwice` | common/chat.cpp:31-44 | three growing inputs after which, under the first assumed loop, the client holds a blank twice |
| `JsonLaws.PathIsTrue` | common/chat-parser.cpp:443-522 | on a tree without the marker the shared-path walk equals the recursion that is given the true path, and leaves the path as it was |
| `JsonLaws.StalePath` | common/chat-parser.cpp:484-502 | a tree on which the skipped pop changes the result |
| `JsonPaths.SafeAgrees` | common/chat-parser.cpp:443-522 | when nothing consults the path after a key was left behind, the walk gives the same tree, flag or exception as the recursion with the true path, for any paths and dump, and restores the path if no key was left |
| `JsonPaths.MarkerLastIsSafe` | common/chat-parser.cpp:473-520 | in particular when nothing is visited after the marker's entry |
| `JsonPaths.CulpritDiffers` | common/chat-parser.cpp:484-502 | listing the true path of the first value that is looked up by a wrong path makes walk and recursion return different trees |
| `JsonPaths.PathsTrueIffSafe` | common/chat-parser.cpp:443-522 | for every tree with distinct keys in which no array goes on after an item that left a key behind: walk and recursion agree for all path lists if and only if nothing looks the path up after a key was left behind |
| `JsonPaths.ObjectsAreSettled` | common/chat-parser.cpp:473-504 | in particular every tree without arrays is one of these |
| `JsonPaths.ArrayItemsMayNotTell` | common/chat-parser.cpp:505-520 | with arrays the condition is not necessary: trees where an item consults a wrong path and no path lists tell |
| `JsonLaws.PlainAgrees` | common/chat-parser.cpp:443-522 | without argument and content paths the walk agrees with the recursion on every tree |
| `JsonLaws.PlainRemovesMarker` | common/chat-parser.cpp:473-521 | then the result is free of the marker and the flag is set if and only if the tree had it |
| `JsonLaws.PlainKeepsUnmarked` | common/chat-parser.cpp:473-521 | then a tree without the marker comes back unchanged |
| `JsonCuts.ListedValue` | common/chat-parser.cpp:445-472 | the value at an argument path becomes its dump, in a partial healed parse the longest part before the first dump marker with a lone quote made empty; a content string becomes the part before the first marker, anything else at a content path fails |
| `JsonCuts.ReachedBecomes` | common/chat-parser.cpp:443-522 | whatever the lists and whatever the rest of the tree holds: every value below objects and arrays that is reached before the marker stands in the result at its own place as the lists say of its path: dumped and cut, cut as content, dropped, or kept |
| `JsonCuts.DumpedMarker` | common/chat-parser.cpp:449-457 | dumped arguments keep the marker if and only if it stands in the dump before the first dump marker |
| `JsonCuts.InsideString` | common/json-partial.cpp:183-185 | when the healing happened inside a string nothing can stand before the dump marker, whatever the tree |
| `JsonCuts.CleanRemovesMarker` | common/chat-parser.cpp:443-522 | for any lists the walk leaves no marker in any key or string of an object or array, if no dump holds it before its dump marker |
| `JsonCuts.HealedArguments` | common/chat-parser.cpp:446-459 | arguments broken off inside a string keep what was received |
| `JsonCuts.UnhealedContentIsEmptied` | common/chat-parser.cpp:461-472 | with nothing healed a whole string is emptied if and only if the root is a content path |
| `JsonWalker.Walker.Remove` | common/chat-parser.cpp:445-522 | the recursive walk over the shared path and flag does what the state-passing function does |
| `JsonWalker.Walker.RemoveMembers` | common/chat-parser.cpp:473-504 | the loop over an object's members, with its push, pop and breaks |
| `JsonWalker.Walker.RemoveItems` | common/chat-parser.cpp:505-520 | the loop over an array's items |
| `JsonWalker.ConsumeJson` | common/chat-parser.cpp:424-529 | both shortcuts; otherwise a listed root is dumped or cut, every value reached before the marker becomes what the lists say of its path, and no marker is left of one healed by the parser; without lists flagged if and only if marked and unchanged when unmarked; equal to the pure recursion when nothing consults the path after a key was left behind |
| `Base64.Decode` | common/base64.hpp:200-244 | the bit accumulator gives: concatenate the 6-bit groups, cut into bytes, drop the remainder; fails if and only if a character or the padding is wrong |
| `Base64.AccumulateIsSpec` | common/base64.hpp:204-229 | from any reachable accumulator state the loop ends with the bytes of the bit string |
| `Base64.AccumulateInPlace` | common/base64.hpp:208-229 | writing over the input gives the same bytes, because the write index stays behind the read index |
| `Base64.DecodeInPlace` | common/base64.hpp:294-298 | same outcome as decoding to a separate buffer; what lies behind the result is untouched |
| `Base64Laws.EncodeFromIsSpec` | common/base64.hpp:88-141 | the group loop computes: cut the bit string into 6-bit groups, pad to four characters |
| `Base64Laws.Encode` | common/base64.hpp:80-144 | the encoder equals that specification |
| `Base64Laws.DecodeUndoesEncode` | common/base64.hpp:80-244 | decoding an encoding gives the bytes back, under its own alphabet and under detection, strict or loose |
| `Base64Laws.DetectionIsEither` | common/base64.hpp:344-389 | detection succeeds if and only if one of the two alphabets does, with that result |
| `Base64Laws.EncodedSize` | common/base64.hpp:338-341 | encoded length is exactly the required size |
| `Base64Laws.DecodedSize` | common/base64.hpp:324-327 | decoded length is three quarters of the symbols before the first pad, rounded down, within the maximum |
| `Base64Text.EncodingIsSpelled` | common/base64.hpp:80-144 | an encoding is the six-bit values written in the 64 letters of section 4 or 5 of RFC 4648, then '=' up to a multiple of four |
| `Base64Text.EncodingsOfF` | common/base64.hpp:80-144 | "f" and "foo" are encoded as in section 10 of RFC 4648 |
| `Base64Text.ValuesOfLetters` | common/base64.hpp:344-389 | under a chosen alphabet a run of characters is read if and only if all are its letters, as their places in it |
| `Base64Text.DecodesIff` | common/base64.hpp:200-244 | decoding succeeds if and only if everything before the first '=' is in the alphabet, without a chosen one in either, and, when strict, only '=' follows |
| `Bpe.BestAmong` | convert_hf_to_gguf.py:3006-3012 | the first adjacent pair of lowest rank |
| `Bpe.FindBest` | convert_hf_to_gguf.py:3006-3012 | the inner loop finds that pair over all adjacent pairs |
| `Bpe.Bpe` | convert_hf_to_gguf.py:3003-3017 | the loop ends with the parts of the model's run |
| `Bpe.MergesFirstLowest` | convert_hf_to_gguf.py:3003-3017 | the pair merged first is the one of lowest rank, of those the first, if that rank is below the limit |
| `Bpe.StopsAtLimit` | convert_hf_to_gguf.py:3013-3014 | without such a pair the parts stay as they are |
| `Bpe.RunKeepsBytes` | convert_hf_to_gguf.py:3003-3017 | parts always concatenate to the token and stay non-empty; no adjacent pair of rank below the limit is left |
| `Bpe.RunIsStaged` | convert_hf_to_gguf.py:3013-3016 | the run for a larger limit continues the run for a smaller one |
| `Bpe.NeverWhole` | convert_hf_to_gguf.py:955-956 | with the token's own rank as limit at least two parts are left |
| `Bpe.MergeIsRecovered` | convert_hf_to_gguf.py:951-957 | for any rank table: at least two parts that concatenate to the token are left; if exactly two, raising the limit by one yields the whole token and so does the unlimited run; if no other token has this rank, exactly two are also necessary for that |
| `Experts.Gatherer.constructor` | convert_hf_to_gguf.py:2202-2203 | one empty map for each block |
| `Experts.Gatherer.TakeWeight` | convert_hf_to_gguf.py:2211-2219 | stacks one weight in expert order and deletes exactly those entries; fails if and only if one is missing |
| `Experts.Gatherer.TakeAll` | convert_hf_to_gguf.py:2208-2226 | all three weights of a block, or failure |
| `Experts.Gatherer.Modify` | convert_hf_to_gguf.py:2196-2230 | one tensor taken in: held, stacked with its block, or an error |
| `Experts.Gatherer.Close` | convert_hf_to_gguf.py:2262-2269 | succeeds if and only if nothing is pending |
| `ExpertLaws.StepKeeps` | convert_hf_to_gguf.py:2196-2228 | every call keeps: fewer than three tensors per expert pending in each block, pending plus stacked is what arrived, each block stacked at most once, in expert order |
| `ExpertLaws.RunKeeps` | convert_hf_to_gguf.py:2196-2228 | this holds over every run of distinctly named tensors that has not failed |
| `ExpertLaws.GatheringIsExact` | convert_hf_to_gguf.py:2196-2269 | a run succeeds if and only if every block got nothing or exactly its tensors; then every tensor is in one stack, at its expert's place |
| `ExpertLaws.StacksHoldArrivals` | convert_hf_to_gguf.py:2208-2226 | the three stacks of a block hold, at each expert's place, the tensor that arrived under that block, expert and weight |
| `ExpertLaws.WaitingIsReplaced` | convert_hf_to_gguf.py:2205-2206 | a tensor of a name that is still waiting takes the place of the one that waits |
| `ExpertLaws.OrderDoesNotMatter` | convert_hf_to_gguf.py:2196-2269 | any two orders of the same tensors both fail or give the same stacks |
| `Layout.PermuteIsBijective` | convert_hf_to_gguf.py:2151-2156 | fails if and only if the rows do not divide into heads of even size; otherwise has a two-sided inverse |
| `Layout.PermutedRows` | convert_hf_to_gguf.py:2151-2156 | rows q and q + k of a head go to its rows 2q and 2q + 1; the key-value head count, when given, is the number of heads |
| `Layout.FalconRow` | convert_hf_to_gguf.py:1831-1840 | the place of every row of every query, key and value head: all queries, then all keys, then all values, in group order |
| `Layout.FalconSucceedsIff` | convert_hf_to_gguf.py:1829-1839 | succeeds if and only if there are heads and, unless they have no rows, the key-value heads (one when absent or zero) divide them and the rows are those of all queries, keys and values |
| `Layout.FalconIsInvertible` | convert_hf_to_gguf.py:1831-1840 | no row is lost or repeated: a two-sided inverse |
| `Utf8.DecodeUndoesEncode` | common/console.cpp:318-338 | the code point is read back from its bytes, whatever follows them |
| `Utf8.EncodedExamples` | common/console.cpp:318-338 | characters of one to four bytes from section 7 of RFC 3629 |
| `Utf8.EncodedInjective` | common/console.cpp:318-338 | different texts have different bytes |
| `Utf8.PopBack` | common/console.cpp:341-353 | walks back over at most three continuation bytes; nothing from an empty line |
| `Utf8.PopsLastCode` | common/console.cpp:341-353 | on any encoded text that removes exactly the last code point |
| `Console.AppendUtf8` | common/console.cpp:318-338 | appends the UTF-8 bytes; nothing above 0x10FFFF |
| `Console.SkipEscape` | common/console.cpp:385-394 | moves past an escape sequence: to its final letter, tilde or the end of the stream |
| `Console.EraseTakesMarks` | common/console.cpp:396-408 | backspace takes the last visible glyph with all zero-width marks on it, and everything if nothing is visible |
| `Console.Backspace` | common/console.cpp:395-408 | pops one width and one character at a time, on as long as the width popped is zero |
| `Console.LastHeadIsKeyed` | common/console.cpp:366-424 | the byte-level loop ends holding the encoding of what the keys leave on a stack of code points |
| `Console.HeadsAreSound` | common/console.cpp:366-424 | over every key sequence, at every loop head: the line is the UTF-8 encoding of code points, no more than there are widths, and the special flag holds if and only if the line ends in a backslash or slash, so the last byte exists wherever it is read |
| `Console.InStepIffNoStray` | common/console.cpp:366-424 | there are as many code points as widths at every loop head if and only if no key above 0x10FFFF is typed as text before the line ends |
| `Console.KeyedIsEdited` | common/console.cpp:366-424 | then line and widths are a list of glyphs throughout, edited as the user sees it |
| `Console.StrayKeyTakesLetter` | common/console.cpp:334-336 | erasing a key above 0x10FFFF takes the letter typed before it |
| `Console.SubmitLine` | common/console.cpp:426-451 | what is returned for a finished line, by its ending and how it ended |
| `Console.ReadlineAdvanced` | common/console.cpp:355-456 | over every key sequence the result is that of the line at the last loop head and of the key that ended it |
| `Console.ReadlineSimple` | common/console.cpp:458-493 | the first line of the input with its special ending applied |
| `Console.ReadersAgree` | common/console.cpp:355-493 | on plain text ended by a newline both return the same line and flag if and only if the text is not " /"; at the end of the stream, if and only if it is empty or has a special ending and is not " /" |
| `ConsoleAnswers.AnswerIsEdited` | common/console.cpp:355-456 | for all keys without one above 0x10FFFF as text the answer is that of the text the user sees: a last backslash gives the text before it with a newline and the other flag, a last slash the text before it (nothing if it is one blank) and no more, else the text as it is and no more at the end of the stream, with a newline and the flag otherwise |
| `ConsoleAnswers.AnswerForText` | common/console.cpp:370-451 | the same for text typed and ended by a newline or carriage return, Ctrl-D or the end of the keys |
| `ConsoleAnswers.ErasingUndoesTyping` | common/console.cpp:395-417 | a letter is added with its width, and both erasing keys take a visible one back |
| `ConsoleAnswers.EscapesLeaveNoTrace` | common/console.cpp:385-394 | an escape key changes nothing, together with the next key or, after '[' or another escape, all keys up to a letter or tilde |
| `ConsoleAnswers.SimpleAnswer` | common/console.cpp:473-492 | the simple reader's answer for any first line and whatever follows it |
| `Strings.JoinLoop` | common/common.cpp:488-497 | parts with the separator between neighbours |
| `Strings.SplitLoop` | common/common.cpp:499-513 | cuts at the leftmost delimiter each time |
| `Strings.ReplaceAll` | common/common.cpp:438-453 | equals splitting at the searched text and joining with the replacement; unchanged for an empty search or an equal replacement |
| `Strings.JoinUndoesSplit` | common/common.cpp:488-513 | joining with the delimiter gives the text back |
| `Strings.NoPartHasDelimiter` | common/common.cpp:499-513 | no part contains the delimiter |
| `Strings.SplitUndoesJoin` | common/common.cpp:488-513 | splitting gives the parts back if and only if no part makes the delimiter appear early and the last has none |
| `Wrap.AddLine` | common/arg.cpp:163-179 | appends the line itself when short enough, else the rows of the greedy grouping |
| `Wrap.BreakIntoLines` | common/arg.cpp:159-184 | every input line, wrapped, in order |
| `Wrap.InputLinesAreSplit` | common/arg.cpp:180-182 | the input lines are the pieces between newlines, without an empty last one |
| `Wrap.GreedyIsGrouping` | common/arg.cpp:167-177 | the rows are groups of consecutive words, each fitting or a single word |
| `Wrap.FewerIsNoWorse` | common/arg.cpp:167-177 | starting a line with fewer words never costs a line, with more at most one |
| `Wrap.GreedyIsOptimal` | common/arg.cpp:167-177 | no grouping under the same rule uses fewer lines |
| `Wrap.WordsOfRow` | common/arg.cpp:167-174 | reading a row back gives exactly its words |
| `Wrap.WrapIsFaithful` | common/arg.cpp:163-179 | rows carry the same words in order, fit or are one word, and wrap to themselves |
| `Wrap.WrapIsOptimal` | common/arg.cpp:163-179 | no list of lines carrying the same words under the same rule, however spaced, is shorter |
| `Wrap.RowsAreFull` | common/arg.cpp:163-179 | a line that is short enough stays as it is; the rows of a longer one are words joined by single spaces, and no row has room for the first word of the next |
| `Lcs.FillRow` | common/common.cpp:1267-1287 | one row of the table from the row before, and the best entry so far |
| `Lcs.CommonLcs` | common/common.cpp:1248-1295 | exactly the greatest length of a contiguous run both sequences contain |
| `Lcs.CommonLcp` | common/common.cpp:1241-1246 | the longest common prefix, never longer than the longest common run |
| `Lcs.LongestRunIsSymmetric` | common/common.cpp:1248-1295 | the order of the arguments does not matter |
| `Lcs.RunAgainstSubsequence` | common/common.cpp:1248-1295 | the answer is never above the length of the longest common subsequence, which exists, and equal to it if and only if some longest one is contiguous in both sequences |
| `Lcs.NotASubsequence` | common/common.cpp:1248-1295 | two sequences whose longest common subsequence has two tokens while the answer is 1 |
| `Escapes.TakePiece` | common/common.cpp:608-636 | one turn writes the piece it reads and touches nothing else, so the output never overtakes the input |
| `Escapes.ProcessEscapes` | common/common.cpp:604-639 | the pass over its own input leaves the pure left-to-right unescaping of the original |
| `Escapes.UnescapingReadsSpelling` | common/common.cpp:604-639 | any text, each byte spelled as itself, by its short escape or by two digits, is read back |
| `Escapes.HexEscape` | common/common.cpp:617-627 | every byte can be written by its two digits, in either case, before any rest |
| `Escapes.UnescapingUndoesDoubling` | common/common.cpp:604-639 | doubling every backslash protects any text |
| `Escapes.ShrinksOrKeeps` | common/common.cpp:604-639 | the text never grows, and is unchanged if it keeps its length |
| `Escapes.TakenAsByte` | common/common.cpp:617-631 | after backslash and x two characters are taken as a byte if and only if the second is a hexadecimal digit and the first a digit, a blank or a sign; it is the byte they spell in two digits if and only if both are digits; otherwise backslash and x stay |
| `Escapes.SignedDigit` | common/common.cpp:617-628 | two inputs where a sign or a blank and one digit are taken as a byte |
| `Escapes.AfterBackslash` | common/common.cpp:610-632 | before any rest: n, r, t, both quotes and the backslash are read as their byte; before any other character the backslash stays, and before x with fewer than two characters after it |
| `Escapes.OneByItself` | common/common.cpp:633-635 | any other byte stands for itself, and so does a last backslash |
| `ControlVectors.AddTensor` | common/common.cpp:1506-1513 | extends with zeros and adds the scaled direction at its layer's slice |
| `ControlVectors.TakeTensor` | common/common.cpp:1476-1513 | one tensor: rejected if and only if unusable, out of range if and only if dimension times layer leaves int, else added at its layer |
| `ControlVectors.LoadOne` | common/common.cpp:1443-1526 | undefined if and only if a tensor that is reached has dimension times layer outside int; otherwise the scaled sums of a file whose tensors are all valid and of one dimension, at least one, or (-1, empty) |
| `ControlVectors.AddVectors` | common/common.cpp:1547-1550 | component-wise sum of two results of different length |
| `ControlVectors.Load` | common/common.cpp:1528-1560 | undefined if and only if a file that is reached is; otherwise succeeds if and only if there are files and all load with one dimension: then length is dimension times largest layer and every position is the sum over all files and tensors; else (-1, empty) |
| `ControlVectors.DimensionIsForced` | common/common.cpp:1498-1504 | the common dimension can only be that of the first tensor |
| `ControlVectors.NamedLayer` | common/common.cpp:1467-1475 | the name of a layer, written in decimal, is read as that layer up to the range of int, else rejected |
| `ControlVectors.LayerOfName` | common/common.cpp:1463-1475 | after "direction." blanks, a sign, leading zeros and anything that is no digit after the number are accepted; the layer is the signed number, or none outside int |
| `ControlVectors.NoLayer` | common/common.cpp:1463-1475 | without a number there, or without "direction." in front, there is no layer |
| `ControlVectors.LayerThirtyOne` | common/common.cpp:1463-1475 | "direction.31" is layer 31 |
| `ControlVectors.LoadedLayers` | common/common.cpp:1506-1513 | every layer up to the largest has its own slice, equal to the sum of the directions naming that layer, zero when none does |
| `ControlVectors.OrderOfFilesIsIrrelevant` | common/common.cpp:1528-1560 | the same files in any order give the same vectors |

## Left out

- AllocatorScores.GreedyIffSeparate: menus of three types or more whose second step removes more noise per bit than the first, which the noise formula does not give, are covered only together with all others (GreedyOnEveryMenu).
- JsonPaths.PathsTrueIffSafe: on trees in which an array goes on after an item that left a key behind only the sufficient half is proved, because the other half is false there (ArrayItemsMayNotTell) and no finer condition is given.
- Experts.Gatherer.Modify: with no experts at all nothing can be stacked, which the original reports by an exception of its tensor library; the laws ask for at least one expert.
- ChatStreaming.StreamIsExact: the loops that drive parsing and differences are assumed; the repository has none.
- ControlVectors.LoadOne: what the original does once dimension times layer has left the range of int is undefined and not modelled further.
- Base64.DecodeInPlace: says nothing of the buffer's contents after a failed decode.
- Strings.SplitLoop: requires a non-empty delimiter, because with an empty one the original never returns.
- ChatReasoning.ParseGrows: assumes that the two tags are not both empty, because the original loop then does not advance.
- Allocator.Problem: parameter counts are positive and the menu has at least one type, as the tables and the menu construction provide; base noise and bits are those of the first menu entry.
- Floating-point rounding everywhere: scores, bits, errors and directions are exact reals.
- The heap of the allocator is a sequence in push order from which the best entry is removed, not an array heap.
- The copy of the same optimizer in tools/hsic/allocate_pi05.py.
- Score loading, the HSIC and Fisher estimators, full-model bit accounting and printing.
- Tool-call parsing, regular expressions, the JSON parser and grammars: the parsed JSON, its dump and the healing marker are inputs.
- Tensor names and their mapping in the converter: expert names are triples of block, expert and weight; columns of a tensor are not modelled, nor the check of their number.
- Vocabulary loading, hyperparameters, architecture registration, RoPE factors.
- Terminal output, colours, cursor movement, width estimation and the Windows branches: reported widths are arbitrary integers.
- Command-line options, downloads, model and context loading, sampling, threads.
- `isspace` is that of the C locale; strings are sequences of characters without an encoding except in the console and the escapes, which work on bytes.
