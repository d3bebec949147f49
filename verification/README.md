# Verified models of the HERO driver and example programs

This project models the parts of the HERO repository whose correctness is hardest to see from
the code, and proves what they are for. `dafny verify dfyconfig.toml` checks all of it.

| area | files | main results |
|---|---|---|
| PULP-to-host mailbox | `MailboxFrames`, `MailboxProtocol`, `MailboxRuns`, `MailboxOrder`, `MailboxDriver` | `RunsDeliverPayload`, `CopyIsUndisturbed`, `OrderIff`, `OvertakingRun`, `UserBytesIff` |
| double-buffered matrix product | `DoubleBuffer`, `DoubleBufferProof`, `DoubleBufferProgress`, `DoubleBufferHost` | `RunsComputeProduct`, `RunsKeepDmaDiscipline`, `UsefulRunsFinish`, `FinishesIff`, `DeviceMatchesHost` |
| scatter-gather lists and DMA descriptors | `ScatterGather`, `DmaDescriptors` | `MapSg`, `XferAsync`, `DescriptorsCopyBuffer` |
| matrix product, tiled and untiled | `Gemm`, `TiledGemm` | `GemmCpu`, `TiledIff` |
| convolution and its data gradient | `Sums`, `Im2col`, `Convolution`, `ConvIndices`, `ConvGradient`, `UnitGradient` | `Forward`, `ForwardByIndices`, `ShortcutIff`, `DataGradientIsAdjoint`, `UnitGradientIff` |
| reorg layer | `Reorg` | `BackwardUndoesForward` |
| non-maximum suppression | `Boxes`, `Nms` | `DoNmsObj`, `DoNmsSort`, `ObjByAreas`, `ClassByAreas` |
| class hierarchy | `TreeTables`, `Hierarchy` | `ReadTree`, `StopsIffSafe`, `HierarchyTopPrediction` |
| PNG, TGA and HDR writers | `PngFilters`, `TgaRle`, `HdrRle` | `WriteFiltered`, `EncodeImage`, `WriteScanline` |
| JPEG writer | `BitStrings`, `JpegBits`, `JpegBlock`, `JpegHuffman`, `JpegTables`, `JpegEncoder`, `JpegScan` | `HeaderReads`, `AcAgrees`, `ProcessDU`, `WriteOwnScan` |
| weight files | `WeightFile`, `WeightNetwork` | `SaveThenLoad` |

`Arith` holds the facts about products and remainders that the index computations share, and
`Common` a few definitions.

## How the models are built

- The mailbox and `double_buf_mm` are transition systems. A mailbox event is one lock-protected
  section, one iteration of a drain loop, one step taken without the lock, or one word pushed by
  the accelerator. In `double_buf_mm` every thread step, every multiply-accumulate and every
  word of a DMA transfer is an event, and a DMA job leaves its destination arbitrary until it is
  waited for. The theorems speak about every run.
- A clause `var x := P(..); x` states `P(..)`; it is written so that the verifier takes the predicate
  as a whole.
- What the C code updates in place is a class or an array with `modifies` clauses; operands that
  a function only reads are sequences. The five vectors that `pulp_mem_map_sg` fills in parallel
  are one table of records.
- Floating point is modelled by exact reals. 32-bit wrap-around is written out where the result
  depends on it: the sums of `double_buf_mm`, the bit buffer of the JPEG writer, byte arithmetic
  of the encoders.
- Decoders are written from the standards: section 6 of RFC 2083 (PNG), Annex C and sections
  F.1.2.3 and F.2.2.1 to F.2.2.3 of ITU-T T.81 (JPEG), the TGA packet format and the Radiance
  scanline format. The JPEG decoder uses the Huffman tables that the file's own header describes.
- Scheduling, completion times of DMA transfers, the sorting order that `qsort` picks among
  equal elements, and the words that the accelerator pushes are arbitrary.

## What the proofs show about the code

- Mailbox requests are carried out exactly once, but not always in the order in which they were
  sent, because both actors drop the lock around a request. As long as never both hold a request
  the order is kept (`OrderWhileAlone`); as soon as both do, one of the two orders in which they
  can go on is the wrong one (`OvertakeIff`). All runs keep the order exactly if no header
  brings payload or there is only one request word (`OrderIff`, with `OvertakingRun` from the
  initial state).
- `pulp_mbox_read` accounts for whole words only: the odd bytes of a read come again with the
  next one (`OddBytesRepeat`, `OddReadRun`), and user space gets exactly the payload's bytes if
  and only if every read was of whole words (`UserBytesIff`, `ReadsWholeWordsIff`).
- A `pulp_mbox_clear` between the two locked sections of a read would let the read's commit
  break the ring, unless what it copied happens to be what was stored since
  (`ClearDuringCopyIff`, `ClearBreaksLaw`). The protocol's runs have no such clear.
- The last wait of `double_buf_mm` names a job that was issued exactly when there are at least
  two stripes (`RunsKeepDmaDiscipline`); with one stripe no run ends, with two or more every
  schedule of useful steps does (`FinishesIff`, `UsefulRunsFinish`). The sizing in `main`
  guarantees two (`StripeSizing`).
- The tile walk of `gemm_nn_tiled` skips the last row, column or term exactly in dimensions that
  are 1 modulo the block size; the result is that of the plain product for all operands exactly
  if there is no such dimension or the product is empty (`TiledIff`).
- The `size == 1` shortcut of the forward pass computes the convolution exactly when the stride is 1 and there
  is no padding, apart from layers with a single output pixel that read one channel or 1x1
  images (`ShortcutIff`).
- The backward pass adds the data gradient to `net.delta`, except for 1x1 filters, where it
  overwrites it: there the gradient law holds exactly if `net.delta` was zero before
  (`BackwardUnit`, `UnitGradientIff`).
- `hierarchy_top_prediction` terminates on all predictions exactly when the threshold is not
  negative or node 0 has no children (`StopsIffSafe`).
- A comment in `stbi_write_png_to_mem` says that the last filter tried need not be applied
  again; the loop variable has left the range by then, so the chosen filter is always applied
  once more. The result is the same.
- The TGA writer ends a literal packet where a pixel equals the one two places before it, not
  its neighbour. The packets still decode to the row.

## Model

| member | source | states |
|---|---|---|
| MailboxFrames.MacrosSplitHeader | support/pulp-driver/pulp_mbox.h:32-34 | type and word count taken from a header word determine the word |
| MailboxFrames.AppendWord | support/pulp-driver/pulp_mbox.c:222-278 | what one more word changes in the frame grammar: payload of the open frame, a new header, or a request |
| MailboxFrames.PayloadPrefix | support/pulp-driver/pulp_mbox.c:222-278 | the payload of a beginning of the stream is a beginning of its payload |
| MailboxProtocol.StepKeepsInv | support/pulp-driver/pulp_mbox.c:165-432 | every step of handler, reader, accelerator and clear keeps the ring, frame and request invariant |
| MailboxProtocol.RunsDeliverPayload | support/pulp-driver/pulp_mbox.c:196-432 | in every state of every interleaving, delivered words followed by the ring are exactly the payload of the words consumed, in order; `full` means exactly that all slots are used; requests are neither lost nor doubled |
| MailboxProtocol.CopyIsUndisturbed | support/pulp-driver/pulp_mbox.c:319-356 | no step of anyone touches the slots that a read copies without the lock, and its commit hands over the next stretch of payload |
| MailboxProtocol.AvailableIsContiguous | support/pulp-driver/pulp_mbox.c:329-333 | a read is offered all words stored, as far as they lie side by side in the array |
| MailboxRuns.OddBytesRepeat | support/pulp-driver/pulp_mbox.c:338-357 | a commit hands over the words it accounts for and then the first bytes of the word that stays at the head of the ring |
| MailboxRuns.UserBytesIff | support/pulp-driver/pulp_mbox.c:312-432 | since the start or the last clear, user space got exactly the bytes of the delivered words if and only if every commit was of whole words; otherwise it got more |
| MailboxRuns.ReadsWholeWordsIff | support/pulp-driver/pulp_mbox.c:319-338 | which byte counts make a whole commit: multiples of four, and those that ask for all that is available |
| MailboxRuns.OddReadRun | support/pulp-driver/pulp_mbox.c:312-432 | a run from the initial state in which one to three bytes arrive twice |
| MailboxRuns.ClearDuringCopyIff | support/pulp-driver/pulp_mbox.c:165-194 | after a clear inside a read, whatever was stored since, the commit keeps the delivery law exactly if the words copied are the first ones now stored |
| MailboxRuns.ClearBreaksLaw | support/pulp-driver/pulp_mbox.c:165-194 | a run to a state in which such a clear makes the commit claim a word that was never received |
| MailboxOrder.OrderWhileAlone | support/pulp-driver/pulp_mbox.c:222-385 | in every run in which never both actors hold a request, the requests carried out, and then the one in hand, are those taken in the order sent |
| MailboxOrder.OvertakeIff | support/pulp-driver/pulp_mbox.c:222-385 | once both hold a request, both can go on in either order, and the order sent is kept in both exactly if the two words are equal |
| MailboxOrder.OvertakingRun | support/pulp-driver/pulp_mbox.c:196-432 | a run from the initial state in which, of any two requests sent one after the other, the second is carried out first |
| MailboxOrder.OrderIff | support/pulp-driver/pulp_mbox.c:196-432 | all runs carry requests out in the order sent exactly if no header brings payload or there are no two different request words |
| MailboxDriver.DrainIsRun | support/pulp-driver/pulp_mbox.c:222-281 | a drain loop is a run of single parsing steps |
| MailboxDriver.Mailbox.constructor | support/pulp-driver/pulp_mbox.c:109-120 | the initial state of the protocol |
| MailboxDriver.Mailbox.Clear | support/pulp-driver/pulp_mbox.c:165-194 | hardware queue and ring are flushed; the frame in progress is forgotten |
| MailboxDriver.Mailbox.ParseOne | support/pulp-driver/pulp_mbox.c:222-278 | one iteration of the parser is the protocol's parsing step on the driver's fields |
| MailboxDriver.Mailbox.DrainLocked | support/pulp-driver/pulp_mbox.c:222-281 | the loop up to the next unlock is that many protocol steps |
| MailboxDriver.Mailbox.ReadBegin | support/pulp-driver/pulp_mbox.c:319-338 | the first locked section fixes how many bytes are copied, or finds nothing to read |
| MailboxDriver.Mailbox.ReadCommit | support/pulp-driver/pulp_mbox.c:342-357 | the second locked section accounts for the bytes copied and moves `rd` as the protocol does |
| DoubleBufferProof.StepKeepsInv | openmp-examples/mm-large/mm-large.c:79-258 | every thread step, compute step and transferred word keeps the invariant of buffers, jobs and partial sums |
| DoubleBufferProof.RunsKeepDmaDiscipline | openmp-examples/mm-large/mm-large.c:94-258 | in every reachable state compute has no conflicting transfer in flight, waits name issued jobs, and at the end no job is outstanding; the final wait is right exactly for two stripes or more |
| DoubleBufferProof.RunsComputeProduct | openmp-examples/mm-large/mm-large.c:79-258 | whenever a run is done, c holds the sums of a[i][k]*b[j][k] modulo 2^32, for every completion timing |
| DoubleBufferProgress.NeverStuck | openmp-examples/mm-large/mm-large.c:94-258 | with two stripes or more, in every reachable state that is not done some useful step is enabled |
| DoubleBufferProgress.UsefulLess | openmp-examples/mm-large/mm-large.c:94-258 | every step of a thread, every cell stored for the first time and every missing word moved leaves less work, in lexicographic order |
| DoubleBufferProgress.UsefulRunsFinish | openmp-examples/mm-large/mm-large.c:79-258 | no schedule of useful steps goes on for ever: each reaches its end, with the product in c |
| DoubleBufferProgress.FinishesIff | openmp-examples/mm-large/mm-large.c:94-258 | from an initial state some run finishes exactly if there are at least two stripes |
| DoubleBufferProof.DotIsSum | openmp-examples/mm-large/mm-large.c:222-225 | summing step by step modulo 2^32 is the exact sum modulo 2^32 |
| DoubleBufferHost.HostProduct | openmp-examples/mm-large/mm-large.c:338-345 | the host loop computes the product entries |
| DoubleBufferHost.DeviceMatchesHost | openmp-examples/mm-large/mm-large.c:79-258 | a finished run leaves exactly the host's matrix |
| DoubleBufferHost.StripeSizing | openmp-examples/mm-large/mm-large.c:284-305 | the sizes chosen in main: height a multiple of the stripe height, at least two stripes, a stripe below 32 KiB after as few halvings as possible |
| ScatterGather.NumPages | support/pulp-driver/pulp_mem.c:101-114 | exactly the pages that the bytes of the buffer touch |
| ScatterGather.MapSg | support/pulp-driver/pulp_mem.c:142-246 | the table is the division of the buffer into adjacent, maximal, physically contiguous segments, one more than there are gaps |
| ScatterGather.VisitPage | support/pulp-driver/pulp_mem.c:203-229 | one page: the open segment goes on or is closed at a gap |
| ScatterGather.CheckNumSg | support/pulp-driver/pulp_mem.c:248-293 | the count is the same number of segments |
| ScatterGather.ChainGrows | support/pulp-driver/pulp_mem.c:203-229 | closing a contiguous stretch at a gap keeps segments adjacent and maximal |
| DmaDescriptors.SegmentBytes | support/pulp-driver/pulp_mem.c:190-245 | every byte of a segment lies at its page's physical address |
| DmaDescriptors.TranslatePage | support/pulp-driver/pulp_mem.c:190-245 | byte o of page i of the buffer lies o bytes behind the start of that page |
| DmaDescriptors.FillDescs | support/pulp-driver/pulp_dma.c:173-247 | the first descriptors move exactly the bytes of the first segments; only the last notifies |
| DmaDescriptors.XferAsync | support/pulp-driver/pulp_dma.c:141-247 | the descriptors' byte moves, in order, are byte k between addr_pulp + k and the physical address of addr_l3 + k, in either direction |
| DmaDescriptors.MoveDirection | support/pulp-driver/pulp_dma.c:202-236 | towards the host each byte goes from addr_pulp on to its physical address, otherwise back |
| DmaDescriptors.ExecuteCopies | support/pulp-driver/pulp_dma.c:173-247 | executing moves between distinct places copies every source byte |
| DmaDescriptors.TranslateInjective | support/pulp-driver/pulp_mem.c:190-245 | with distinct pages, different bytes of the buffer have different physical addresses |
| DmaDescriptors.DescriptorsCopyBuffer | support/pulp-driver/pulp_dma.c:173-247 | executed in order, the list is a copy of the whole buffer that changes nothing else |
| Gemm.GemmNn | openmp-examples/darknet/gemm.c:90-105 | adds ALPHA times the product to the block of C and changes nothing else |
| Gemm.GemmNt | openmp-examples/darknet/gemm.c:366-379 | the same with B transposed |
| Gemm.GemmTn | openmp-examples/darknet/gemm.c:381-393 | the same with A transposed |
| Gemm.GemmTt | openmp-examples/darknet/gemm.c:395-408 | the same with both transposed |
| Gemm.GemmCpu | openmp-examples/darknet/gemm.c:415-481 | C becomes BETA * C + ALPHA * op(A) * op(B) on the block, unchanged elsewhere |
| Gemm.GemmByIndices | openmp-examples/darknet/gemm.c:415-481 | entry (i, j) of the block, by array indices for plain and transposed operands: the scaled old value plus the sum of the K products |
| TiledGemm.WalkStep | openmp-examples/darknet/gemm.c:122-124 | a step of the irregular walk continues where the tile ends |
| TiledGemm.WalkEnd | openmp-examples/darknet/gemm.c:122-124 | the walk terminates having covered all, or all but the last place, of a dimension |
| TiledGemm.GemmNnTiled | openmp-examples/darknet/gemm.c:107-139 | every covered (m, n, k) is added exactly once |
| TiledGemm.TiledIsPlain | openmp-examples/darknet/gemm.c:90-139 | the tiled result is the plain product if no dimension is 1 modulo the block size, or if some dimension is 0 |
| TiledGemm.TiledFallsShort | openmp-examples/darknet/gemm.c:122-124 | for all other dimensions there are operands on which it is not |
| TiledGemm.TiledIff | openmp-examples/darknet/gemm.c:90-139 | both results are equal for all operands exactly for those dimensions |
| Im2col.GetPixel | openmp-examples/darknet/im2col.c:8-15 | a pixel of the zero-padded image |
| Im2col.Im2colCpu | openmp-examples/darknet/im2col.c:19-40 | every entry of the column matrix is the padded pixel of its kernel position and output place |
| Im2col.AddPixel | openmp-examples/darknet/col2im.c:7-13 | adds to the pixel, or to nothing in the padding |
| Im2col.Col2imCpu | openmp-examples/darknet/col2im.c:16-37 | the image after all entries were added |
| Im2col.ScatterAdjoint | openmp-examples/darknet/col2im.c:7-37 | scattering columns is the adjoint of gathering them |
| Im2col.OutputSizeIff | openmp-examples/darknet/convolutional_layer.c:68-74 | the output size is the number of windows that fit into the padded image: the last one ends inside it, one more would not |
| Convolution.FlatIsDirect | openmp-examples/darknet/im2col.c:19-40 | the sum over flattened kernel positions is the direct triple sum |
| Convolution.EntryIsDirect | openmp-examples/darknet/convolutional_layer.c:433-467 | an entry of weights times columns is the direct zero-padded convolution there |
| Convolution.WorkspaceFits | openmp-examples/darknet/convolutional_layer.c:84-103 | the column matrix needs exactly the workspace size |
| Convolution.Forward | openmp-examples/darknet/convolutional_layer.c:421-467 | the output is the direct grouped convolution for all batches, groups, strides and pads, with as many rows and columns as windows fit into the padded image |
| ConvIndices.ForwardByIndices | openmp-examples/darknet/convolutional_layer.c:421-467 | every output value by its place in the array (image, group, filter, row, column): the sum over the channels of its group and the window positions of weight times input pixel, by their places in the arrays |
| Convolution.ShortcutIff | openmp-examples/darknet/convolutional_layer.c:443-444 | GEMM with the image itself in place of its column matrix gives the convolution for all weights and inputs exactly under the condition on stride, padding and output size |
| ConvGradient.MatrixExchange | openmp-examples/darknet/convolutional_layer.c:493-525 | moving a matrix to the other side of an inner product transposes it |
| ConvGradient.BackwardData | openmp-examples/darknet/convolutional_layer.c:493-525 | net.delta after the data-gradient pass over all batches and groups |
| ConvGradient.DataGradientIsAdjoint | openmp-examples/darknet/convolutional_layer.c:493-525 | dot(x, increment of net.delta) is dot(conv(x), delta) for all x and delta |
| UnitGradient.BackwardUnit | openmp-examples/darknet/convolutional_layer.c:511-521 | for 1x1 filters with stride 1 and no padding, net.delta becomes what the general pass makes of zeros, whatever it held |
| UnitGradient.UnitGradientIff | openmp-examples/darknet/convolutional_layer.c:511-521 | the law that net.delta grows by the adjoint of the forward map then holds exactly if net.delta was all zero |
| Reorg.TransposeInverse | openmp-examples/darknet/blas.c:37-54 | the index maps of both directions of flatten are inverse bijections |
| Reorg.Flatten | openmp-examples/darknet/blas.c:37-54 | the array is permuted by that map |
| Reorg.PermuteInverse | openmp-examples/darknet/blas.c:13-35 | the index maps of both directions of reorg_cpu are inverse bijections |
| Reorg.ReorgCpu | openmp-examples/darknet/blas.c:13-35 | out is x permuted by that map |
| Reorg.OutputsAreInputs | openmp-examples/darknet/reorg_layer.c:95-133 | input and output have the same number of elements when the stride divides the sizes |
| Reorg.Forward | openmp-examples/darknet/reorg_layer.c:95-113 | each of the four modes permutes by its map |
| Reorg.Backward | openmp-examples/darknet/reorg_layer.c:115-133 | each of the four modes permutes by the inverse map |
| Reorg.ReorgElement | openmp-examples/darknet/reorg_layer.c:95-133 | where the element with the loop indices b, k, j and i of reorg_cpu goes in the forward and in the backward pass, with and without reverse |
| Reorg.FlattenElement | openmp-examples/darknet/reorg_layer.c:95-133 | flatten turns channel by channel into pixel by pixel, with reverse the other way round, and the backward pass does the opposite |
| Reorg.BackwardUndoesForward | openmp-examples/darknet/reorg_layer.c:95-133 | feeding the output back returns the input, in all four modes |
| Boxes.OverlapIsCommonLength | openmp-examples/darknet/box.c:153-161 | overlap is the length of the common part of two intervals, negative when there is none |
| Boxes.IntersectionIsCommonArea | openmp-examples/darknet/box.c:163-171 | the intersection is the area of the common points: the product of the lengths of the common intervals, or zero without common points |
| Boxes.UnionCoversBoth | openmp-examples/darknet/box.c:173-175 | union and common area together are both areas |
| Boxes.IouAboveIff | openmp-examples/darknet/box.c:177-177 | IoU exceeds t exactly if the common area exceeds t times the area covered |
| Boxes.IntersectionBounds | openmp-examples/darknet/box.c:163-175 | the intersection fits into both boxes and the union holds both |
| Boxes.Iou | openmp-examples/darknet/box.c:177-177 | between 0 and 1 |
| Boxes.IouLaws | openmp-examples/darknet/box.c:153-177 | symmetric, and 1 for a box with itself |
| Nms.Qsort | openmp-examples/darknet/box.c:11-25 | a permutation into an order that nms_comparator accepts |
| Nms.Compact | openmp-examples/darknet/box.c:29-39 | a permutation that puts detections without objectness last |
| Nms.GreedyEnd | openmp-examples/darknet/box.c:46-59 | the double loop over sorted scores leaves no overlapping pair and explains every suppressed entry |
| Nms.DoNmsObj | openmp-examples/darknet/box.c:27-60 | a permutation up to zeroed scores; no two survivors above the threshold; every newly suppressed one overlaps a final survivor of at least its score |
| Nms.ObjByAreas | openmp-examples/darknet/box.c:27-60 | the same by areas: the common area of two survivors is at most the threshold's part of what they cover; a suppressed detection shares more with a survivor of at least its score |
| Nms.DoneMoves | openmp-examples/darknet/box.c:74-91 | the promise for a finished class survives every later re-sort |
| Nms.ProgressStep | openmp-examples/darknet/box.c:74-91 | the turn of a class establishes its promise and touches no other class |
| Nms.DoNmsSort | openmp-examples/darknet/box.c:62-92 | the same promise for each class independently, across all re-sorts |
| Nms.ClassByAreas | openmp-examples/darknet/box.c:62-92 | the same by areas, for each class |
| TreeTables.ReadTree | openmp-examples/darknet/tree.c:85-134 | groups are maximal runs of one parent and partition the nodes; child is the last group of a node; leaf means no child |
| TreeTables.GroupsIncrease | openmp-examples/darknet/tree.c:106-119 | a node's child group comes after the node's own group |
| TreeTables.ChildGroup | openmp-examples/darknet/tree.c:106-119 | a child group is not empty and belongs to the node |
| TreeTables.LeafIffChildless | openmp-examples/darknet/tree.c:130-134 | the two ways to see that a node has no children agree |
| Hierarchy.GetHierarchyProbability | openmp-examples/darknet/tree.c:32-39 | the product of values from the root to the node |
| Hierarchy.HierarchyPredictions | openmp-examples/darknet/tree.c:41-54 | every one of the first n entries becomes that product of the old values, or zero for inner nodes when only leaves count; nothing else changes |
| Hierarchy.StopsIffSafe | openmp-examples/darknet/tree.c:56-83 | exactly when the descent terminates on all predictions |
| Hierarchy.NeverStops | openmp-examples/darknet/tree.c:56-83 | otherwise it runs forever on all-zero predictions |
| Hierarchy.RunMeaning | openmp-examples/darknet/tree.c:56-83 | at every moment the accumulated p is the probability of the node descended from |
| Hierarchy.HierarchyTopPrediction | openmp-examples/darknet/tree.c:56-83 | the answer is reached through the first largest nodes of their groups, lies above the threshold, and no node of its child group does; or no root node lies above it |
| PngFilters.PixelIsFilter | openmp-examples/darknet/stb_image_write.h:986-1047 | both switches, with the variants for the first line, compute the filters of RFC 2083 |
| PngFilters.PaethIsNearest | openmp-examples/darknet/stb_image_write.h:979-984 | the predictor is the neighbour nearest to left + up - corner, on ties left before up before corner, and no other value is |
| PngFilters.FilteredByte | openmp-examples/darknet/stb_image_write.h:986-1047 | each byte of a filtered line is the row's byte less nothing, left, up, the mean rounded down, or the nearest of three |
| PngFilters.LinesInOrder | openmp-examples/darknet/stb_image_write.h:986-1010 | line y is row y of the pixels, or counted from the last row when flipped |
| PngFilters.EncodeLine | openmp-examples/darknet/stb_image_write.h:986-1047 | a whole line for every filter, stride and row order |
| PngFilters.ReconUndoesFilter | openmp-examples/darknet/stb_image_write.h:979-1047 | undoing a filter returns the line |
| PngFilters.RoundTrip | openmp-examples/darknet/stb_image_write.h:1071-1100 | for every sequence of filter choices the stream decodes to the rows |
| PngFilters.ChooseFilter | openmp-examples/darknet/stb_image_write.h:1078-1096 | the automatic choice has the smallest sum of absolute residuals, the first such filter on ties |
| PngFilters.SignedIsResidue | openmp-examples/darknet/stb_image_write.h:1084-1084 | residuals count as the values from -128 to 127 with the same eight bits |
| PngFilters.WriteFiltered | openmp-examples/darknet/stb_image_write.h:1050-1100 | the buffer holds filter bytes and residuals of every row, each filter forced or cheapest, and decodes to the image |
| JpegBits.UnstuffAppend | openmp-examples/darknet/stb_image_write.h:1192-1197 | removing stuffed zeros distributes over complete pieces of the stream |
| JpegBits.AddCode | openmp-examples/darknet/stb_image_write.h:1190-1191 | or-ing a shifted code into the window appends its bits |
| JpegBits.ShiftOut | openmp-examples/darknet/stb_image_write.h:1192-1200 | the byte taken out is the oldest eight bits, and the rest moves up |
| JpegBits.BitWriter.Start | openmp-examples/darknet/stb_image_write.h:1554-1554 | an empty window is a valid writer into which nothing was written |
| JpegBits.BitWriter.WriteBits | openmp-examples/darknet/stb_image_write.h:1187-1203 | unstuffed bytes plus pending bits grow by exactly the code's bits |
| JpegBlock.MagnitudeExtends | openmp-examples/darknet/stb_image_write.h:1257-1265 | EXTEND of the magnitude bits returns the coefficient |
| JpegBlock.MagnitudeBits | openmp-examples/darknet/stb_image_write.h:1257-1265 | the bits of a positive number as it is, of a negative one inverted, in as many bits as its absolute value has |
| JpegBlock.AcDecodes | openmp-examples/darknet/stb_image_write.h:1306-1332 | decoding run/size symbols and magnitudes returns all AC coefficients |
| JpegHuffman.CodeDecodes | openmp-examples/darknet/stb_image_write.h:1531-1545 | DECODE of section F.2.2.3, with the code lengths and values of a header, returns the symbol of every code that Annex C assigns and stops right behind it |
| JpegHuffman.HeaderReads | openmp-examples/darknet/stb_image_write.h:1531-1545 | an encoder's table that has those codes is read back by the header's decoder, whatever follows |
| JpegHuffman.RoundTrip | openmp-examples/darknet/stb_image_write.h:1293-1333 | decoding a coded block with the header's tables returns the block, whatever follows |
| JpegTables.DcAgrees | openmp-examples/darknet/stb_image_write.h:1339-1379 | in YDC_HT and UVDC_HT the sizes 0 to 11 have the codes that the DC lists of the header assign |
| JpegTables.AcAgrees | openmp-examples/darknet/stb_image_write.h:1342-1455 | in YAC_HT and UVAC_HT end of block, sixteen zeros and every run with sizes 1 to 10 have the codes that the AC lists of the header assign |
| JpegEncoder.CalcBits | openmp-examples/darknet/stb_image_write.h:1257-1265 | size and magnitude bits that EXTEND inverts |
| JpegEncoder.ProcessDU | openmp-examples/darknet/stb_image_write.h:1293-1333 | the writer gains bits from which the block decodes with the header's tables, whatever is written later |
| JpegScan.WriteScan | openmp-examples/darknet/stb_image_write.h:1550-1590 | from an empty writer to the fill bits: the bytes put out are the codes of the blocks of Y, U and V in turn, each with the DC difference to the block before of the same component, and decode to all macroblocks |
| JpegScan.WriteOwnScan | openmp-examples/darknet/stb_image_write.h:1339-1590 | the same with the four tables of the source and the lists written into the header, the first two for Y and the others for U and V, without any assumption on them |
| TgaRle.NextPacket | openmp-examples/darknet/stb_image_write.h:480-507 | a length from 1 to 128 inside the row; a run is as long as it can be, a literal stretch ends at the first pixel that equals the one two places before |
| TgaRle.WritePixel | openmp-examples/darknet/stb_image_write.h:351-379 | colours from last to first, then alpha if there is one; a reader turns the bytes back into the pixel |
| TgaRle.StreamDecodes | openmp-examples/darknet/stb_image_write.h:509-519 | the bytes of packets of length 1 to 128 decode to the pixels that they stand for |
| TgaRle.PacketBytes | openmp-examples/darknet/stb_image_write.h:509-519 | a run is 127 plus its length and one pixel, literals are one less than their number and the pixels |
| TgaRle.LinesInOrder | openmp-examples/darknet/stb_image_write.h:466-476 | line r of the file is row r from the bottom, or with flip from the top |
| TgaRle.EncodeRow | openmp-examples/darknet/stb_image_write.h:479-520 | the bytes of a row are packets of length 1 to 128 that decode to the row |
| TgaRle.EncodeImage | openmp-examples/darknet/stb_image_write.h:466-521 | the bytes after the file header decode to the rows in file order, for 1 to 4 bytes per pixel |
| HdrRle.WriteRunData | openmp-examples/darknet/stb_image_write.h:567-572 | from the bytes appended, whatever follows, a reader gets the run back |
| HdrRle.WriteDumpData | openmp-examples/darknet/stb_image_write.h:574-579 | from the bytes appended, whatever follows, a reader gets the bytes of the dump back |
| HdrRle.PacketBytes | openmp-examples/darknet/stb_image_write.h:567-579 | a run is 128 plus its length and the byte, a dump is its length and the bytes |
| HdrRle.FindRun | openmp-examples/darknet/stb_image_write.h:637-643 | the first place where three equal bytes start |
| HdrRle.RoundTrip | openmp-examples/darknet/stb_image_write.h:632-666 | a component's stream decodes to it, whatever follows |
| HdrRle.EncodeComponent | openmp-examples/darknet/stb_image_write.h:632-664 | the output is runs of at most 127 and dumps of at most 128 bytes, and decodes to the component |
| HdrRle.WriteScanline | openmp-examples/darknet/stb_image_write.h:581-666 | 2, 2 and the width in two bytes, then four components that decode to the four components |
| WeightFile.File.WriteFloats | openmp-examples/darknet/parser.c:937-943 | appends the array to the file |
| WeightFile.File.ReadFloats | openmp-examples/darknet/parser.c:1066-1067 | reads exactly what was written there and moves on by as much |
| WeightFile.TransposeMatrix | openmp-examples/darknet/parser.c:1053-1063 | rows and columns change places |
| WeightFile.SaveConvolutional | openmp-examples/darknet/parser.c:926-944 | biases, normalisation arrays if any, weights |
| WeightFile.SaveConnected | openmp-examples/darknet/parser.c:957-970 | biases, weights, normalisation arrays if any |
| WeightFile.LoadConvolutional | openmp-examples/darknet/parser.c:1131-1181 | biases, weights and, with batch normalisation, scales, means and variances are those saved; the rest of a unit of the same shape stays, and exactly its numbers are consumed |
| WeightFile.LoadConnected | openmp-examples/darknet/parser.c:1065-1089 | the same for connected units, when nothing has to be transposed |
| WeightFile.LoadLocal | openmp-examples/darknet/parser.c:1256-1261 | the same for LOCAL layers |
| WeightNetwork.SaveBody | openmp-examples/darknet/parser.c:994-1046 | the saver's own order of sub-layers, for every layer type, is that of the file format |
| WeightNetwork.LayerLayout | openmp-examples/darknet/parser.c:994-1046 | for each layer type, the parts that the file holds and their order |
| WeightNetwork.UnitLayout | openmp-examples/darknet/parser.c:926-970 | for each kind of part, its arrays and their order |
| WeightNetwork.FileLayout | openmp-examples/darknet/parser.c:983-1047 | version 0.2.0, the images seen, then each layer below the cutoff behind the ones before it |
| WeightNetwork.LoadBody | openmp-examples/darknet/parser.c:1213-1261 | the loader's own order of sub-layers, for every layer type, finds each where the format puts it |
| WeightNetwork.SaveWeightsUpto | openmp-examples/darknet/parser.c:972-1049 | header, then every layer below the cutoff that is saved |
| WeightNetwork.ReadHeader | openmp-examples/darknet/parser.c:1194-1207 | a saved header gives back the seen counter and asks for no transposition |
| WeightNetwork.PartFollows | openmp-examples/darknet/parser.c:1209-1265 | what a layer saved stands right behind what the layers before it saved |
| WeightNetwork.LoadWeightsUpto | openmp-examples/darknet/parser.c:1183-1270 | loading a saved file restores every saved array and the seen counter, leaves the rest, and uses the file up |
| WeightNetwork.SaveThenLoad | openmp-examples/darknet/parser.c:972-1270 | a network saved and loaded into another of the same shape: below the cutoff the biases, weights and normalisation arrays of every part of every layer type arrive, and the counter; skipped layers and those from the cutoff on stay |

## Left out

- RAB, TLB and SMMU management: mailbox requests are steps that do not touch mailbox state.
- Interrupt acknowledgement and wake-up (`pulp_mbox.c:283-301`): no liveness of the handler is claimed.
- pulp_mem_l2_get_entries, cache maintenance in the DMA loop, page pinning and allocation failures.
- 32-bit overflow of addresses and of allocation sizes in the scatter-gather code: buffers end below 2^32 and allocations succeed.
- `gemm_nn_tiled` with offload or manual DMA, and the per-layer kernels that `gemm_cpu` may call instead of `gemm_nn`.
- Weight gradients; batch normalisation, biases and activations of the convolutional layer.
- UnitGradient.BackwardUnit: stride 1 and no padding only; for other 1x1 layers the forward shortcut is already wrong (`ShortcutIff`).
- Reorg layers with `extra`.
- DECONVOLUTIONAL layers: the loader divides by a group count that is never set. Biases of BATCHNORM layers are never saved, and stay as they were.
- GPU branches, image loading and drawing, zlib compression and PNG chunks, the DCT and quantisation of JPEG, conversion of floats to RGBE, uncompressed TGA and HDR rows.
- Floating-point rounding and not-a-number values.
- Nms.DoNmsSort: boxes have positive width and height, because IoU divides by the union; the same holds for Nms.DoNmsObj.
- JpegEncoder.ProcessDU: DC differences of at most 11 bits and AC coefficients of at most 10 bits, which is what the tables have codes for.
- JpegScan.WriteOwnScan: takes the blocks of all macroblocks quantised and in zigzag order, within the same bounds, and covers the entropy-coded segment, not the other segments of the file.
- TiledGemm.TiledIsPlain: `gemm_nn_tiled` ignores ALPHA and the leading dimensions, so it is compared with `gemm_nn` for ALPHA = 1, lda = K and ldb = ldc = N.
- HdrRle.WriteScanline: covers widths 8 to 32767, which are the ones that the source run-length codes.
- PngFilters.WriteFiltered: a line has at most 0x7fffffff / 128 bytes, so that the sum of residuals cannot overflow.
- WeightFile.LoadConvolutional: with `numload`, `flipped` or `dontloadscales` set nothing is stated about the loaded arrays; those flags are there to load something else than was saved.
- WeightNetwork.LoadWeightsUpto: the file is read from layer 0 on (`start` is 0); short and foreign files are read as far as they go and nothing is stated about the result.
- Hierarchy.HierarchyTopPrediction: for a negative threshold only termination is stated.
