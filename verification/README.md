# Proofs about the runtime crate

A Dafny model of the parts of the runtime in which a fast, staged or mutable form has to agree with a
simple meaning, with proofs that it does. `dafny verify dfyconfig.toml` checks all of it.

| part | modules | main results |
|---|---|---|
| Reverse-mode differentiation over strided tensors | `Sums`, `Shapes`, `Dense`, `Tensors`, `Views`, `Rules`, `Adjoint`, `MatmulAdjoint`, `Replay`, `PlainValues`, `Sweep`, `Autograd`, `Tape` | every node of a tape holds the plain arithmetic of its operation; on every tape the gradients satisfy the adjoint identity against forward-mode tangents, and each entry is a partial derivative; permutation, broadcasting and slicing in any rank; slices that share a buffer |
| Incremental decoder | `Decoder`, `DecoderMeaning`, `DecoderRun`, `DecoderOracle` | attention is the weighted sum over the shared heads; pushing tokens one by one equals recomputing the sequence, as an equality of results |
| JSON | `Decimals`, `JsonValue`, `JsonSyntax`, `JsonParser`, `JsonRoundTrip`, `JsonGrammar`, `JsonSound`, `JsonComplete`, `JsonRender` | rendering writes one canonical tree; rendering and parsing round-trip; of the texts of RFC 8259 exactly those are accepted that meet four conditions, no other text is, and the value is what the text denotes |
| Response protocol | `Conversation`, `ConversationRuns`, `ConversationCalls` | content then one terminal under every interleaving; nothing after it; what every send, receive, poll and drop returns or pushes; the one way in which a run hangs, and exactly when; otherwise no deadlock and no stranded receiver |
| Instants | `Calendar`, `Instans`, `InstansOffsets` | the two date conversions are inverse and follow the calendar; the RFC 3339 text round-trips exactly from a known bound on, and with any offset |
| Digests and encodings | `Bytes`, `Sha256`, `Sha256Constants`, `Sha256Answer`, `Sha256Drivers`, `DeviceIdentity`, `Discovery`, `BoundPlan`, `Layout` | the streaming and the one-shot SHA-256 agree on every message and every cut; the constants come from the primes and a known answer is met; canonical bytes are injective and read back |
| Containers | `Arena`, `Sparsa`, `Intervallum` | handles refine a map and stale ones stay stale up to wrap-around; sparse tensors refine dense ones; intervals refine point sets |

## How the model reads

Code that changes things step by step is modelled step by step: `AutogradTape`, `AutogradGradients`, `ForwardRun`,
`Parser`, `Streaming`, `Arena`, `Sparsa`, `View` and `IntervallumWalk` are classes whose methods change their
fields, and the kernels are loops over arrays and growing sequences. Each such method is proved against a function
of its inputs or of the old state, and the lemmas are about those functions. The response protocol is a state
machine: a send reads the cancellation flag twice, takes the mutex, tests and sets the flag and pushes, each in a
step of its own, and the steps of any number of senders and receivers interleave. The receiver that starts the host
holds the conversation lock from making the host's sender until its own is dropped, and a push needs that lock. The
lock is not reentrant: a thread that already holds it waits for ever.

- `f32` is `real`. A recorded tape value is a snapshot, as `record` materializes it. Division by zero is refused
  where the source refuses it. Relu has at zero the one-sided tangent that its gradient uses.
- The element count of a shape is a product checked at every prefix, which is how `src/tensor_test.rs:36-64` pins
  the function of the contract crate that computes it; that crate is not part of this model.
- In the decoder the scalar operations and the row kernels are parameters. Only the lengths of their results are
  assumed. The number of layers is arbitrary.
- A `BTreeMap` is its rows in key order. A string in `DeviceIdentity`, `Discovery`, `BoundPlan` and `Instans` is its
  UTF-8 bytes; in the JSON modules a character is a Unicode scalar value and positions count characters.
- Where an arithmetic overflow or an assertion would panic, the model has `None`. In a build without overflow checks
  `truncate_nanos` (`src/instans.rs:67-70`) wraps instead for instants less than one unit above the lowest i64, and the
  wrapped instant is printed; the model has `None` there too.
- Addition modulo 2^32 in SHA-256 is written in the order of the code; both drivers have the same text for the
  block function and the same table of constants, and share one method here.

## Where the source is not what one might expect

- An instant before 1677-09-22 prints, but its text is not parsed back: the start of its day is below the range of
  i64 (`Instans.RoundTrip`). Closer to the lower end truncation itself overflows.
- Where RFC 3339 wants digits, the numbers of a date, a time and an offset may begin with a sign, and the two numbers
  of an offset with a colon may have any number of digits (`InstansOffsets.AcceptsSigns`). The form +hh is accepted
  though the documentation does not name it.
- `longitudo` says it has the cardinality of `ad_lista`; it saturates on wide signed spans
  (`Intervallum.LongitudoSaturates`, and exactly when in `Intervallum.LongitudoCounts`).
- `union` of two empty intervals can loop for ever, `0..0` with itself on an unsigned type for one.
  `Intervallum.UnionEnds` is the exact condition under which it ends (`Intervallum.UnionEndsExactly`), and
  `Intervallum.EmptyUnionNeverEnds` says which intervals do not meet it.
- The documentation of `remove` calls a removed handle permanently stale; the generation wraps after 2^32 removals
  of one slot (`Arena.Arena.RemovedStaysStale`, and a run to that point in `Arena.HandleComesBack`).
- `ensure_runtime_response_started` keeps a sender of its own and drops it on return, while `sermo_recv` holds the
  conversation lock (`src/frame.rs:693-698`, `src/frame.rs:800-808`). If the host has dropped its last sender by then,
  without a terminal frame, that drop has to push one, for which it locks the mutex its thread holds
  (`src/frame.rs:336-359`, `src/frame.rs:644-648`). The receive then never returns. `ConversationRuns.HangingRun` is
  such a run and `ConversationRuns.StarterDropFinishes` says exactly when it happens; a host whose sender outlives the
  start does not cause it.
- The JSON parser refuses texts that the grammar of RFC 8259 has, on four conditions besides the object root: an
  unescaped control character from U+007F to U+009F, a surrogate escape without its partner, a number that i64 or a
  finite float cannot hold, and two keys of an object that are the same string (`JsonComplete.DocumentTaken`). The
  `JsonComplete.Refuses...` lemmas give a document for each. It refuses no other text of the grammar and accepts no
  text outside it (`JsonComplete.AcceptsExactly`).

## Model

| member | source | states |
|---|---|---|
| Sweep.AdjointIdentity | src/autograd.rs:458-775 | for every recorded tape, every scalar loss and every choice of leaf tangents the reverse sweep succeeds, each gradient has its node's shape, and the sum over the leaves of gradient times tangent is the forward-mode tangent of the loss; a leaf that is not reached counts as zero, repeated parents add up |
| Sweep.GradientIsPartialDerivative | src/autograd.rs:458-775 | every entry of a leaf gradient is the forward-mode derivative of the loss in that entry |
| Sweep.BackwardSucceeds | src/autograd.rs:458-466 | on a scalar loss of a recorded tape `backward` has no error left to report |
| Sweep.TurnEffect | src/autograd.rs:472-477 | one turn of the reverse loop leaves later slots alone and moves the pairing of a node to its parents without loss |
| Sweep.AddIntoEffect | src/autograd.rs:1114-1137 | accumulating a gradient raises the pairing of that slot by exactly what the gradient pairs to |
| Replay.LocalAdjoint | src/autograd.rs:477-713 | for every modelled operation the gradients it sends to its parents pair with the parents' tangents to what the upstream gradient pairs with the tangent of its result |
| Replay.ForwardPrimal | src/autograd.rs:162-393 | replaying an operation over dual numbers succeeds when the real one did and has its value as value component |
| Rules.DualIsFirstOrder | src/autograd.rs:162-200 | the tangent component of the dual product is the derivative: the exact product at x + e dx and y + e dy differs from it by a term with a factor e squared; and so for the quotient, multiplied by the divisor |
| Rules.DualIsExact | src/autograd.rs:162-300 | sum, difference and negation have exactly the tangents of the duals, and relu has for every step that does not cross zero |
| PlainValues.RecordedMeans | src/autograd.rs:162-394 | every node of every recorded tape holds the plain arithmetic of its operation on the entries of its parents: sum, difference, product or exact quotient at the coordinates aligned from the last axis, negation, the greater of the entry and zero, the multiple, the matrix product, the moved, sliced or regrouped entries, the total and the mean |
| PlainValues.SummaIsSum | src/tensor.rs:538-542 | the sum is the sum of the elements |
| PlainValues.MediaIsMean | src/tensor.rs:884-892 | the mean times the number of elements is their sum, and is refused exactly for no elements |
| PlainValues.ArithmeticMeans | src/tensor.rs:495-517 | sum, difference and product under broadcasting, at every coordinate of the joined shape |
| PlainValues.DivideMeans | src/tensor.rs:848-868 | the quotient times the divisor, which is not zero, is the dividend, at every coordinate |
| PlainValues.MatmulMeans | src/tensor.rs:1130-1165 | entry (i, j) of the product is the sum over p of a(i, p) times b(p, j) |
| PlainValues.PermuteMeans | src/tensor.rs:323-337 | the entry at an index stands, after permuting, where coordinate k is the index's coordinate axes[k] |
| PlainValues.SectioMeans | src/tensor.rs:274-288 | the entry of a slice is the parent's entry start rows further |
| Tape.AutogradTape.Backward | src/autograd.rs:458-775 | the loop over the nodes returns the three misuse errors of the source and otherwise gradients that satisfy the adjoint identity for all leaf tangents |
| Tape.AutogradTape.BackwardNode | src/autograd.rs:472-771 | one node of the loop computes one turn of the specified sweep |
| Tape.AutogradTape.Record | src/autograd.rs:1054-1076 | recording keeps every node the result of its operation on earlier nodes |
| Tape.AutogradTape.NewLeaf | src/autograd.rs:155-160 | a view is refused and leaves the tape alone, anything else becomes a leaf that holds its present content |
| Tape.AutogradTape.Binary | src/autograd.rs:1040-1052 | foreign and missing operands and tensor faults are reported without recording, otherwise one node with the operation's value is appended |
| Tape.AutogradTape.Matmul | src/autograd.rs:290-302 | as Binary, for the matrix product |
| Tape.AutogradTape.Permute | src/autograd.rs:333-350 | as Binary, for an axis permutation, with its four faults |
| Tape.AutogradTape.Sectio | src/autograd.rs:352-365 | as Binary, for a slice along the first axis |
| Tape.AutogradTape.Media | src/autograd.rs:374-394 | as Binary, for the mean; the mean of nothing is refused |
| Autograd.AutogradGradients.Accumulate | src/autograd.rs:1114-1137 | a wrong shape or id is refused, an empty slot is set, a present gradient is added to |
| Autograd.ReduceBroadcastGradient | src/autograd.rs:1162-1184 | the in-place scatter computes the specified reduction, and refuses shapes that do not broadcast |
| Autograd.ScatterAxis0Gradient | src/autograd.rs:1186-1221 | the in-place scatter computes the specified gradient of a slice, with the same refusals |
| Autograd.Contributions | src/autograd.rs:477-713 | the arms of the match compute the specified gradients of every modelled operation |
| Adjoint.ReduceIsBroadcastAdjoint | src/autograd.rs:1162-1184 | for all ranks and shapes reducing is the adjoint of broadcasting: the upstream gradient paired with the broadcast of x equals the reduced gradient paired with x, so with ones the total is conserved |
| Adjoint.MulAdjoint | src/autograd.rs:496-520 | product rule under broadcasting of both operands |
| Adjoint.DivAdjoint | src/autograd.rs:521-547 | quotient rule under broadcasting, with the quotient formed before the second division as in the source |
| Adjoint.PermuteAdjoint | src/autograd.rs:668-677 | permuting the gradient by the inverse axes is the adjoint of permuting |
| Adjoint.SectioAdjoint | src/autograd.rs:678-685 | scattering into the rows of the slice is the adjoint of slicing |
| Adjoint.FormaAdjoint | src/autograd.rs:658-667 | reshaping back is the adjoint of reshaping |
| Adjoint.SummaAdjoint | src/autograd.rs:686-694 | a constant gradient is the adjoint of the sum |
| Adjoint.MediaAdjoint | src/autograd.rs:695-713 | a constant gradient divided by the count is the adjoint of the mean |
| Adjoint.ReluAdjoint | src/autograd.rs:552-569 | the mask of positive outputs is the adjoint of relu along its tangent |
| MatmulAdjoint.MatmulAdjoint | src/autograd.rs:635-653 | the two transposed products are the adjoint of the matrix product |
| Shapes.RavelUnravel | src/tensor.rs:421-431 | every ordinal below the element count unravels to a valid index that ravels back |
| Shapes.UnravelRavel | src/tensor.rs:421-431 | every valid index has an ordinal below the count and is unravelled from it |
| Shapes.RavelIsLexicographic | src/tensor.rs:411-431 | row-major order is the lexicographic order of the indices, whatever the rank |
| Shapes.OffsetIsRavel | src/tensor.rs:382-389 | the stride sum of a row-major tensor is the row-major ordinal, whenever the count fits |
| Shapes.UnravelIndex | src/tensor.rs:421-431 | the division loop computes the index |
| Shapes.RowMajorStrides | src/tensor.rs:411-419 | the backward loop computes the saturating suffix products |
| Shapes.BroadcastShape | src/tensor.rs:453-471 | the joined shape, or a mismatch exactly when some pair of dimensions disagrees |
| Shapes.JoinAbsorbs | src/autograd.rs:1167-1169 | joining a shape with the upstream shape gives the upstream shape exactly when the shape broadcasts to it |
| Shapes.InversePermutationAxes | src/autograd.rs:1311-1325 | the inverse axis list, or a refusal exactly when the list is no permutation |
| Shapes.InverseAxesCorrect | src/autograd.rs:1311-1325 | the computed axes undo the permutation on both sides |
| Shapes.SliceIsRun | src/tensor.rs:274-288 | an element of a slice stands the start rows' elements further in the parent |
| Dense.PermuteRoundTrip | src/tensor.rs:323-337 | permuting by any valid axis list and then by its inverse gives back shape and elements, for every rank |
| Tensors.Permute | src/tensor.rs:323-337 | the kernel over strides computes the permutation, with the same faults in the same order |
| Dense.FirstAxisFault | src/tensor.rs:323-337 | the fault reported is that of the first axis that is negative, too large or a repetition |
| Tensors.Matmul | src/tensor.rs:1130-1165 | the triple loop over strides computes the matrix product |
| Tensors.Elementwise | src/tensor.rs:495-517 | broadcast elementwise application over strides |
| Tensors.Divide | src/tensor.rs:848-868 | elementwise quotient; refused exactly when some used denominator is zero |
| Tensors.Structa | src/tensor.rs:187-193 | a tensor of the data and shape given, or the two faults |
| Tensors.Planata | src/tensor.rs:196-202 | the logical elements of a strided view in row-major order |
| Views.View.AddressInRun | src/tensor.rs:367-389 | through any chain of slices logical indices address one run of the buffer in row-major order |
| Views.View.AddressInjective | src/tensor.rs:353-365 | no two logical indices share a buffer position |
| Views.View.SlicedSeen | src/tensor.rs:274-288 | the elements of a slice are the matching slice of its parent's row-major list |
| Views.View.Sectio | src/tensor.rs:274-288 | a slice shares the buffer and sees those rows, or the first fault of the bounds |
| Views.View.Ponde | src/tensor.rs:238-245 | a write changes one element of the buffer and of what is seen, a refused one nothing |
| Views.View.Reple | src/tensor.rs:247-253 | a fill changes what is seen and nothing else in the buffer |
| Views.View.Planata | src/tensor.rs:196-202 | the list read through strides is the run of the buffer |
| Views.WriteBehind | src/tensor.rs:238-293 | a write through a slice of a slice succeeds exactly for bounds and indices inside the parts, changes exactly the element of the first tensor that stands there in row-major order, and never reaches a copy made before |
| DecoderOracle.IncrementalEqualsBatch | src/cpu_oracle.rs:798-807 | pushing the tokens one by one gives exactly the row or the error of the batch pass, for every sequence and any number of layers |
| DecoderOracle.ForwardRun.PushToken | src/cpu_oracle.rs:859-914 | a refused token changes nothing; any other appends its key and value rows to every cache and keeps the earlier ones, and the caches hold what the batch pass computes |
| DecoderOracle.ForwardRun.PositionLogits | src/cpu_oracle.rs:920-934 | the logits are those the batch pass defines for the tokens pushed so far |
| DecoderOracle.ForwardOne | src/cpu_oracle.rs:513-534 | the batch loops compute the defined logits, or name the first token outside the vocabulary |
| DecoderOracle.HoldsExtends | src/cpu_oracle.rs:859-914 | caches of a sequence become those of one more token by appending that token's rows |
| DecoderRun.ForwardLayer | src/cpu_oracle.rs:549-655 | one layer of the batch pass computes every row from the rows up to it |
| DecoderRun.AttentionGqa | src/cpu_oracle.rs:711-792 | the buffers filled head by head are the attention rows, query i seeing the keys up to its own position |
| DecoderMeaning.AttendIsWeightedSum | src/cpu_oracle.rs:762-789 | over the reals every context column is the sum over the rows seen of weight times value, the weights the softmax of the scaled inner products, with three consecutive query heads on one head of the caches |
| DecoderMeaning.AttendSelects | src/cpu_oracle.rs:780-786 | for any elements with a zero and a one: when the weights are one at row j and zero elsewhere, column c of the context is column c / 64 / 3 * 64 + c % 64 of value row j |
| DecoderMeaning.ScoreSelects | src/cpu_oracle.rs:766-778 | a query row that is one in a single column scores the matching key entry times the scale in the head of that column, and zero times the scale elsewhere |
| DecoderMeaning.TriplesShare | src/cpu_oracle.rs:674-680 | query heads 3g, 3g + 1 and 3g + 2 with equal parts have equal context |
| DecoderMeaning.QueryHead | src/cpu_oracle.rs:587-592 | each query head is the rotation, for its row's position, of its part of the projection of the normalized row |
| DecoderMeaning.KeysHold | src/cpu_oracle.rs:593-600 | cached key row j is the projection of the normalized row j, rotated head by head for position j and then rounded |
| DecoderMeaning.ValuesHold | src/cpu_oracle.rs:600-602 | cached value row j is the rounded projection of the normalized row j, not rotated |
| DecoderMeaning.CloseAddsContext | src/cpu_oracle.rs:617-626 | when the feed-forward part gives zeros the row is the input plus the projected context |
| DecoderMeaning.CloseAddsFeedForward | src/cpu_oracle.rs:626-653 | when attention gives zeros it is the input plus the projection of the gated feed-forward part of the normalized input, the gate projection first |
| DecoderMeaning.CloseKeepsRow | src/cpu_oracle.rs:626-653 | when both give zeros the row comes out unchanged |
| DecoderMeaning.StackFromFront | src/cpu_oracle.rs:526-528 | the first layer is applied first |
| DecoderMeaning.LogitsOfLastToken | src/cpu_oracle.rs:513-534 | when no layer adds anything the logits are the tied projection of the normalized embedding row of the last token |
| Decoder.StackIsCausal | src/cpu_oracle.rs:798-807 | no later token changes an earlier row, at any depth |
| Decoder.CachePrefix | src/cpu_oracle.rs:859-914 | keys and values of the first rows depend on those rows alone |
| Decoder.AttendPrefix | src/cpu_oracle.rs:711-792 | attention of a query that sees n rows reads the first n rows of the caches only |
| JsonRoundTrip.DocumentReads | src/json.rs:35-43 | rendering any valid carrier and parsing the text gives the same carrier |
| JsonRoundTrip.ValueReads | src/json.rs:185-209 | the same for any valid value at any depth, with any text after it that cannot continue a number |
| JsonRoundTrip.StringReads | src/json.rs:221-239 | every Unicode string is rendered to a token that reads back as the string |
| JsonRoundTrip.I64Reads | src/json.rs:397-448 | every i64 is rendered to a token that reads back as the number |
| JsonRoundTrip.RenderInjective | src/json.rs:73-76 | two valid carriers with the same wire text are the same |
| JsonRender.RendersTree | src/json.rs:185-239 | rendering writes one tree of the grammar: no blank, members in the order of the table, whole numbers without a fraction, floats with one, and every string in its shortest spelling |
| JsonRender.CharSpelled | src/json.rs:221-239 | a character stands for itself where it may, has its short escape if there is one, and else four lower-case digits |
| JsonSound.DocumentRead | src/json.rs:35-43 | every accepted input is space, one object of the grammar of RFC 8259 and space up to its end; the four conditions of DocumentTaken hold of it; and it denotes the value returned |
| JsonComplete.AcceptsExactly | src/json.rs:35-43 | an input is accepted exactly when it is such a text: an object of the grammar, space around it, that meets the four conditions |
| JsonComplete.DocumentTaken | src/json.rs:35-43 | of all texts of the grammar of RFC 8259 (sections 2 to 7, nothing added) exactly those are accepted whose root is an object and in which, at any depth, no control character stands for itself, every surrogate escape is one of a pair, every number fits i64 or is a finite float, and the keys of an object are different strings; the value is then what the text denotes |
| JsonComplete.NodeTaken | src/json.rs:251-309 | every value of the grammar at any depth, whatever space is around its parts, is read as what it denotes if it meets the four conditions and refused otherwise |
| JsonComplete.NumberTaken | src/json.rs:397-448 | a numeral of the grammar is read as what it denotes if the carrier can hold it and refused otherwise |
| JsonComplete.PiecesTaken | src/json.rs:311-381 | a string of characters, short escapes and quads is read as what it denotes if its surrogates are paired and no control character stands for itself, and refused otherwise |
| JsonGrammar.PairedMeans | src/json.rs:345-364 | surrogates are paired when a low one follows every high one and a high one precedes every low one |
| JsonGrammar.HexMeans | src/json.rs:366-381 | the hexadecimal digits read are those at the positions of 0123456789abcdef and 0123456789ABCDEF, with that value |
| JsonGrammar.PairIsUtf16 | src/json.rs:345-364 | a surrogate pair stands for the character whose UTF-16 encoding it is |
| JsonComplete.ParsedRendersBack | src/json.rs:35-76 | what was parsed renders to a text that parses to the same value |
| JsonComplete.RefusesDelete | src/json.rs:321-323 | a text of the grammar that is refused for the unescaped U+007F in a string |
| JsonComplete.RefusesLoneSurrogate | src/json.rs:345-364 | one that is refused for the escape of a single surrogate |
| JsonComplete.RefusesBigNumber | src/json.rs:434-446 | one that is refused for its number, for every whole number beyond i64 |
| JsonComplete.RefusesSameKey | src/json.rs:275-283 | one that is refused for two keys that are written differently and are the same string |
| JsonSound.ValueRead | src/json.rs:253-309 | the same for a value anywhere in the input |
| JsonSound.StringRead | src/json.rs:311-381 | a string token is a sequence of grammar pieces, surrogate pairs included, that denote the string returned |
| JsonSound.NumberRead | src/json.rs:397-448 | a number token is of the grammar and denotes the number returned |
| JsonGrammar.ObjectDenotes | src/json.rs:266-290 | the table of an object holds each member once, in key order |
| JsonValue.InsertSorted | src/json.rs:281-283 | inserting a new key keeps a table in key order |
| JsonValue.BeforeMeans | src/json.rs:281-283 | key order: after a common front the key that ends, or has the lesser character, comes first |
| JsonParser.Parse | src/json.rs:35-43 | the parser with its cursor computes the specified result, value or error kind, on every input |
| JsonParser.Parser.ParseValue | src/json.rs:251-264 | agrees with the specified value and leaves the cursor after it |
| JsonParser.Parser.ParseObject | src/json.rs:266-290 | agrees with the specified object, duplicate keys refused |
| JsonParser.Parser.ParseString | src/json.rs:311-327 | agrees with the specified string token |
| JsonParser.Parser.ParseNumber | src/json.rs:397-448 | agrees with the specified number, with the token named in the error |
| JsonParser.Parser.ParseUnicodeEscape | src/json.rs:345-364 | agrees with the specified escape, pairs of surrogates joined and single ones refused |
| JsonValue.WriteString | src/json.rs:221-239 | the loop over the characters renders the string |
| ConversationRuns.ContentThenOneTerminal | src/frame.rs:275-307 | in every run the frames pushed through senders are content followed by at most one terminal, and by exactly one once the last sender has finished dropping |
| ConversationRuns.LateSendsOnlyCancel | src/frame.rs:275-285 | a send begun after cancellation pushes Cancel or Error, or nothing |
| ConversationRuns.StarterDropFinishes | src/frame.rs:790-808 | in every run the drop of the starter's own sender finishes if and only if a sender on the host's side is live when it runs; otherwise it never finishes, its receiver stays blocked and nothing is pushed, in every continuation |
| ConversationRuns.HangingRun | src/frame.rs:336-359 | a run that hangs: the host drops its sender without a frame before the starter drops its own, and the starter's push waits for the lock its own thread holds |
| ConversationRuns.HungFrom | src/frame.rs:336-359 | every hanging run comes from such a drop |
| ConversationRuns.NoStrandedReceiver | src/frame.rs:693-711 | once the terminal frame is in, every receiver has returned, or was woken and returns with its next step |
| ConversationRuns.LastDropReleases | src/frame.rs:336-359 | when every starter's drop of a run finds a sender on the host's side: with no sender left, a step brings a call or the starter closer to its end or the terminal frame is in, and it is in once the last drop has finished |
| ConversationRuns.ConsumedInOrder | src/frame.rs:644-662 | frames are taken once each in the order they were pushed, and dispatch starts at most once |
| ConversationCalls.ReceiveHandsOut | src/frame.rs:693-711 | in every run a receive returns the first frame of the log that was not taken yet; there being none it returns nothing exactly if the terminal frame was taken, and waits if not |
| ConversationCalls.PollHandsOut | src/frame.rs:650-664 | a poll takes the same frame without waiting, hands it out unless it is a terminal one, and does nothing when there is none |
| ConversationCalls.OthersHandNothing | src/frame.rs:644-711 | no other step takes or hands out a frame |
| ConversationCalls.HandedInOrder | src/frame.rs:650-711 | the frames handed out are, in order, the first ones of those pushed; of those taken only the terminal one can be missing, when a poll took it |
| ConversationCalls.SendTells | src/frame.rs:275-307 | in every run a send that returned Ok pushed its own frame, or Cancel for a Done after cancellation; one that returned an error met the terminal flag, or was content after cancellation |
| ConversationCalls.SendWithoutCancellation | src/frame.rs:275-307 | without cancellation Ok means that the send's own frame is in the log, an error that the terminal flag was set |
| ConversationCalls.OnceInRun | src/frame.rs:286-307 | every pushed frame comes from a call that returned Ok, no two from the same call |
| ConversationCalls.DropTells | src/frame.rs:336-359 | what the last drop pushes is the error text, never after a cancellation that came before it began, or Cancel, never without cancellation |
| ConversationRuns.NothingAfterTerminal | src/frame.rs:631-662 | once the terminal frame was taken nothing is pushed, queued or handed out any more |
| ConversationRuns.RunInv | src/frame.rs:275-360 | the invariant of both locks, terminal flag, handles, cancellation, queue and start holds in every state of every run |
| ConversationRuns.NoDeadlock | src/frame.rs:286-359 | while a call is unfinished or the starter holds the conversation lock, some call or the starter can take a step closer to its end exactly when the starter has not come to the push of a last drop |
| ConversationRuns.NoDeadlockInRun | src/frame.rs:790-808 | so there is no deadlock in a run whose starter's drop finds a sender on the host's side |
| Conversation.TerminalPushed | src/frame.rs:286-307 | whoever pushes under the flag pushes onto a log without a terminal |
| Conversation.DropKeepsHandles | src/frame.rs:336-359 | the sender count is the number of sender values, and the last drop is under way until the flag is set |
| Calendar.CivilOfDays | src/instans.rs:411-446 | converting a valid date to its day number and back is the identity |
| Calendar.DaysOfCivil | src/instans.rs:411-446 | converting any day number to a date gives a valid date and back gives the number |
| Calendar.NextDayNumber | src/instans.rs:397-424 | the next date of the calendar has the next day number, through months, leap and century years; the epoch is day 0 |
| Calendar.YearOfEraIs | src/instans.rs:436-436 | the closed formula finds the year of the era of every day of it |
| Instans.RoundTrip | src/instans.rs:218-290 | for every precision and i64: parsing the printed text gives the truncated instant exactly when the instant is not before the first whole day that fits i64, and is declined before it |
| Instans.TextReads | src/instans.rs:222-252 | the same for an instant at its precision |
| InstansOffsets.OffsetReads | src/instans.rs:222-233 | for every offset of less than a day, written +hh:mm, +hhmm or, for whole hours, +hh, and every instant at its precision: the local date and time with the offset parses to the instant exactly when the local day start, the local instant and the instant fit an i64 |
| InstansOffsets.ZonedReads | src/instans.rs:222-252 | the same for any zone text the parser knows, with T or t |
| InstansOffsets.ZoneReads | src/instans.rs:334-371 | each written form of an offset is read as its minutes, east positive |
| InstansOffsets.LocalYear | src/instans.rs:279-279 | the local date of every i64 instant has a year of four digits |
| InstansOffsets.SmallLettersRead | src/instans.rs:222-224 | t and z are read like T and Z |
| InstansOffsets.AcceptsSigns | src/instans.rs:292-302 | a date and an offset that RFC 3339 does not have, and that are read |
| InstansOffsets.TextLayout | src/instans.rs:279-289 | year, month, day, hour, minute and second of the printed text stand at fixed places, then come the fraction in the digits of the precision, and Z |
| InstansOffsets.SampleTexts | src/instans_test.rs:5-8 | one instant printed in each of the four precisions |
| Instans.FourDigitYears | src/instans.rs:279-279 | the year of every i64 instant has four digits |
| Instans.DateReads | src/instans.rs:292-302 | a printed date is parsed back |
| Instans.FractionReads | src/instans.rs:314-326 | the fraction digits of every precision give back the nanoseconds |
| Instans.ParseTimeAndOffset | src/instans.rs:304-331 | the cursor over the fraction digits computes the specified time and offset |
| Instans.FormatRfc3339Utc | src/instans.rs:260-290 | the appended pieces are the specified text, None where truncation overflows |
| Sha256Drivers.DigestPieces | src/discovery.rs:446-488 | streaming a message in any pieces gives its digest |
| Sha256Drivers.OneShot | src/gguf.rs:1259-1351 | the one-shot driver gives the same digest for every message |
| Sha256Drivers.Streaming.Update | src/discovery.rs:446-468 | the buffer holds the part of a block that is left, the state the fold over the blocks before it, the count the length modulo 2^64 |
| Sha256Drivers.Streaming.Finalize | src/discovery.rs:470-488 | the padded rest is compressed to the digest of all that was fed |
| Sha256Drivers.TailInPlace | src/gguf.rs:1327-1340 | the tail built in the 128-byte buffer is the padding of section 5.1.1 of FIPS 180-4 |
| Sha256.CompressBlock | src/discovery.rs:496-544 | the schedule and round loops, in place, compute the compression of section 6.2.2 of FIPS 180-4, whatever the schedule array held before |
| Sha256.ZeroCountLeast | src/gguf.rs:1335-1338 | the padding loop stops at the first count that leaves room for the length, and the padded message is whole blocks |
| Sha256.FoldAppend | src/discovery.rs:459-463 | the fold over a message cut at a block boundary continues the fold over its front |
| Sha256.PaddingInjective | src/gguf.rs:1327-1340 | messages whose bit length fits 64 bits stay apart when padded |
| Sha256Constants.RoundKeysAreCubeRoots | src/discovery.rs:360-425 | each round constant is the first 32 bits of the fraction of the cube root of the t-th prime |
| Sha256Constants.InitialIsSquareRoots | src/discovery.rs:430-440 | each word of the initial hash is the first 32 bits of the fraction of the square root of one of the first eight primes |
| Sha256Constants.PrimesInOrder | src/discovery.rs:360-425 | the numbers used there are the primes from 2 on, none left out |
| Sha256Answer.DigestOfAbc | src/discovery_test.rs:250-253 | the digest of abc is the known answer, which depends on every rotation, constant and order of bytes |
| Discovery.CanonicalInjective | src/discovery.rs:298-345 | snapshots with the same canonical bytes are the same |
| Discovery.KeysMustMatch | src/discovery.rs:229-234 | without the check that an entry sits under its own ordinal the bytes would not tell snapshots apart |
| Discovery.ReadFacts | src/discovery.rs:306-338 | the facts of a device are read back in one way only from any longer stream |
| Discovery.CanonicalBytes | src/discovery.rs:298-345 | the appending loop writes the canonical bytes |
| Layout.SnapshotReadBack | src/discovery.rs:298-345 | a reader that takes the fields in their order, words as little-endian and tags by number, gives the snapshot back |
| Discovery.New | src/discovery.rs:224-244 | construction refuses an entry under a foreign ordinal and otherwise takes as id the digest of the canonical bytes |
| DeviceIdentity.ReadIdentity | src/device_identity.rs:122-139 | identity facts are read back in one way only from any longer stream |
| DeviceIdentity.PushIdentity | src/device_identity.rs:122-139 | the appended bytes are those of the identity |
| Layout.GotIdentity | src/device_identity.rs:122-139 | a reader that knows the tags and the order of the fields reads the identity back from any longer stream |
| Bytes.ReadStr | src/device_identity.rs:281-284 | a length-prefixed string is read back in one way only from any longer stream |
| Bytes.ReadU64 | src/device_identity.rs:269-271 | eight little-endian bytes determine the word |
| Layout.LeIsLittleEndian | src/device_identity.rs:269-275 | the bytes of a word add up to it, the first one the least |
| Layout.LeAt | src/device_identity.rs:269-275 | byte i of a word is its i-th digit to the base 256 |
| BoundPlan.CanonicalInjective | src/bound_plan.rs:594-636 | plans with the same canonical bytes have the same hash, bindings, device set, snapshot and classes, virtual partitions taken by id |
| BoundPlan.CanonicalBytes | src/bound_plan.rs:594-636 | the appending loops write the canonical bytes |
| Layout.PlanReadBack | src/bound_plan.rs:594-636 | such a reader gives the plan back, the snapshot id and the two class words being the last 48 bytes |
| Arena.Arena.Insert | src/arena.rs:82-107 | the contents gain one value under a handle not in use: the head of the free list under its slot's generation, or a new slot under generation 0; the live count grows by one |
| Arena.Arena.Remove | src/arena.rs:129-150 | exactly the handle given is removed, its value returned, its slot put at the head of the free list |
| Arena.Arena.Get | src/arena.rs:111-117 | a handle resolves exactly when it is in the contents |
| Arena.Arena.RemovedStaysStale | src/arena.rs:127-150 | a removed handle resolves again exactly when its slot is live and was freed a multiple of 2^32 times since; so never while no generation has wrapped |
| Arena.HandleComesBack | src/arena.rs:82-150 | a run of 2^32 removals and insertions at the end of which a removed handle resolves |
| Arena.FreePopped | src/arena.rs:83-97 | the free list stays acyclic and holds exactly the free slots when its head is taken |
| Arena.FreePushed | src/arena.rs:133-142 | and when a slot is freed |
| Sparsa.Sparsa.Ponde | src/sparsa.rs:138-146 | a sparse write is the same write on the dense list, a default is never stored, a refused write changes nothing |
| Sparsa.Sparsa.Accipe | src/sparsa.rs:124-127 | a read is the read of the dense list, with the rank checked before the axes in order |
| Sparsa.FirstIndexFault | src/sparsa.rs:42-55 | the fault reported is that of the first axis whose index is outside, negative or too large |
| Sparsa.AdvanceCoordinate | src/sparsa.rs:206-215 | the in-place step goes to the next coordinate in row-major order and says when there is none |
| Sparsa.DenseRoundTrip | src/sparsa.rs:77-81 | dense to sparse to dense is the identity for every shape whose count fits |
| Sparsa.FilledDetermines | src/sparsa.rs:154-182 | two sparse tensors that stand for the same dense one are the same |
| Sparsa.FromTensor | src/sparsa.rs:163-182 | the loop stores the non-default elements under their coordinates |
| Sparsa.PushDenseValues | src/sparsa.rs:185-203 | the loop writes the elements in row-major order |
| Intervallum.Inter | src/intervallum.rs:269-319 | Some exactly when the intervals share a point, and then with exactly the shared points in the direction of the left one; the scans end inside the type |
| Intervallum.Union | src/intervallum.rs:326-369 | where the scans end: Some exactly when the intervals meet or touch, for non-empty ones exactly when there is no gap, and then with exactly the points of both in the direction of the left one |
| Intervallum.NoGapIsContact | src/intervallum.rs:372-425 | non-empty intervals are without a gap exactly when they meet or `touches` holds |
| Intervallum.UnionEndsExactly | src/intervallum.rs:326-369 | `union` comes to an end if and only if `UnionEnds` holds: either the scans are not reached or both of them come to a point |
| Intervallum.EmptyUnionNeverEnds | src/intervallum.rs:372-425 | it fails exactly for two empty intervals whose ends differ by one, or are equal and the least or the greatest value of the type |
| Intervallum.AdLista | src/intervallum.rs:206-234 | the list is the walk, each point once, without leaving the type |
| Intervallum.WalkVisits | src/intervallum.rs:119-137 | the walk visits exactly the points that belong to the interval |
| Intervallum.IntervallumWalk.Next | src/intervallum.rs:459-496 | the lazy walk hands out the points of the eager list in order and then None for ever |
| Intervallum.LongitudoCounts | src/intervallum.rs:251-262 | the length is the number of points exactly when the span fits the type and the number fits i64 |
| Intervallum.LongitudoSaturates | src/intervallum.rs:251-262 | a signed interval whose length comes out wrong |
| Intervallum.CoercereNearest | src/intervallum.rs:166-192 | the clamped value belongs to the interval exactly when it is not empty, and is the nearest point |

## Left out

- Backward rules of square root, exponential, logarithm, GELU, softmax, layer norm and cross-entropy: they rest on
  real analysis or on float behaviour.
- Rounding, infinities and NaN of `f32` and `f64`: the tensors are over the reals, and the checks of `divide` for
  non-finite operands and results fall away. The floats of JSON are an abstract pair of functions assumed to show a
  finite number as a plain decimal and to read it back.
- `Autograd.Contributions`: the gradients of a node are computed before the first is accumulated, so the order in
  which a fault of the second gradient and of the first accumulation would be reported is not modelled; on recorded
  tapes neither occurs.
- `Tensors.Divide`: the refusals of non-finite operands and results are not modelled, because elements are reals.
- Aliasing between a tape and the tensors recorded on it: a recorded value is a snapshot. `Views` models the shared
  buffer apart from the tape, for tensors with at least one element.
- Loading of the decoder's weights: they are taken to have the pinned sizes. Comparison of two runs, top-k and
  divergence records are not modelled.
- A host that sends, drops or fails on the thread that starts it, and a start that fails: the host gets its sender and
  uses it on threads of its own. `tuus_fini`, `sermo_tuus_frames` and `drain_incoming_to_terminal`, which record a terminal of their own, the
  detached state, `push_incoming` and the asynchronous receiver are not modelled.
- The paths and messages of JSON errors; their kinds and the token or key they name are modelled.
- Comparison of instants of different precision, and construction from epoch integers with saturation.
- The hexadecimal spelling of digests, and the checks of `bind` and `admit` before a plan is built.
- Collision resistance of SHA-256: nothing is said about different bytes with the same digest.
- The built-in routes, HTTP, the host interface, the model-file admission table, dequantization, sessions,
  partitions and the execution transaction.
- Intersection and union on intervals of floats: points are integers of a type with given bounds.
