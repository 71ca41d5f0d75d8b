# Telar: models and proofs

A Dafny model of the hard parts of Telar and proofs of what they promise.
`dafny verify dfyconfig.toml` checks everything.

## What is modelled

**The wire codec** of the desktop client. `Wire` holds little-endian integers and
the moving input and output spans. `Schemas` embeds the codec combinators as data
(numbers with bounds, blobs and lists whose counts lie earlier, demands checked ahead of
their items, records with a rule, tagged unions, a body framed by its own length) with one
encoder, decoder, size and validity, and proves round trip and canonicity once for all
of them; `Codecs` proves the in-place writing and reading passes against those functions.
`FrameCodec` and `FrameMessages` instantiate it for terminal frames, `Layouts` for tab
layouts, with their validators proved to accept exactly what they should. `PreparedValues` and
`PreparedFrames` say which checks come before the first byte is written and how far writing
gets when a later one fails; `FrameBudgets` gives frames that meet the size bound. `Cells` is the
cell run with inherited styles, `Utf8` the recogniser, `Texts` the sized text and optional
fields. `Storage` is the buffer that decoded lists are carved from, and `StoredDecodes` and
`StoredFrames` decode into it: a list is carved at its count and filled when its items come,
byte by byte in a memory where any overlap would show; `Workspaces` is the message the receiver
decodes that way, with the size of its buffer. `Streams` is the framing over a socket.
`FrameBytes`, `FramePlaces`, `LayoutBytes`, `CellBytes` and `WorkspaceBytes` say where every field
lies on the wire, byte by byte.

**The image upload worker.** `ImageSteps` is a transition system: an action is one critical
section of the mutex or one unlocked stretch of the upload thread, and actions of the window
thread, the upload thread and the frame worker interleave freely. Vulkan is an outcome: how
many of an image's three objects were made, whether the submissions succeeded. `ImageSafety`
proves the invariant step by step, `ImageRuns` the theorems over runs, `ImageOutcomes` what an
upload leaves behind. `ImagePools` is the
shared object with its fixed arrays and its ring, each method proved to be one step. `Bands` is
the copy loop of one upload.

**Cached textures.** `Textures` and `TextureRuns` prove that patching changed rows agrees with
uploading whole pages over every run of frames; `Resources` is the object updated frame by frame.

**Three smaller protocols.** `Clipboards` is the hand-over of transfer slots between two threads,
one shared access per action, `ClipboardProgress` what the worker does for each transfer, and
`ClipboardObjects` the object they share, with its fixed byte
arrays and copy loops, whose entry points run while the worker takes any steps in between.
`Reports` is the plugin's bounded queue and pane state over every run of handlers, with the history of
attempts and completions, and the object with its prompt map. `Sweep` is the event sweep against
its pointwise meaning.

## What the proofs found

- The comment at lib/window/vulkan/vulkan_images.c:291 says admission keeps queued, running and
  unreported uploads under the ring. The reject path (lines 444-449) posts completions without
  that check, so it does not: a client that keeps 17 uploads in flight can lose a completion.
  `ImageRuns.NoLossIff` gives the exact bound, 16; the documented client limit of 4
  (lib/window/native/telar_gui.h:22-23) is within it.
- The field-by-field worst case of a frame leaves three bytes at 130359 cells. The bound real
  snapshots meet is smaller, since metadata has one flag byte a row: `FrameMessages.SnapshotFits`
  states both, and `FrameBudgets.BoundAttained` shows snapshots that reach it.
- The frame validator (serializers/telar_frame.hpp:269-296 of the client) checks neither the pointer
  shape nor the mouse tracking, keyboard flags and cursor shape; the encoder finds them out of range
  only when it writes them. A failed encode may therefore leave a started message in the caller's
  buffer: `FrameMessages.EncodeFrame` says exactly when and what, and
  `FrameBudgets.UnknownPointerWitness` is such a frame.

## Assumptions

- The client's promises are hypotheses where the code relies on them: the window thread calls
  nothing after destroy began and accepts images only while no frame is drawn
  (lib/window/vulkan/vulkan_images.h:13-14, lib/window/native/telar_gui.h:151-155); a version of a page
  names its bytes, and rows outside the changed ones match the base (lib/window/native/telar_gui.h:107-109,
  162-167).
- Once prepare has recorded its copies they are executed: a failure between recording and
  submission ends the renderer (lib/window/LinuxSurface.zig:91-117).
- Traces are sorted by time before the sweep; the sort is the language's own.

## Model

| member | source | states |
|---|---|---|
| `Wire.LittleEndianRoundTrip` | services/desktop-mode/telar_client/codecs/telar_wire.hpp:188-216 | Reading the bytes written for an integer that fits its width gives the integer back. |
| `Wire.LittleEndianDigits` | services/desktop-mode/telar_client/codecs/telar_wire.hpp:188-198 | Byte i written for a number is its i-th digit to base 256, the least significant first. |
| `Wire.LittleEndianCanonical` | services/desktop-mode/telar_client/codecs/telar_wire.hpp:200-216 | Any bytes read as an integer are the bytes that integer is written as: one form per number. |
| `Wire.OutputSpan.PutNumber` | services/desktop-mode/telar_client/codecs/telar_wire.hpp:188-198 | The byte loop appends exactly the little-endian form to what was written, advances the span and touches nothing else. |
| `Wire.InputSpan.TakeNumber` | services/desktop-mode/telar_client/codecs/telar_wire.hpp:200-216 | Takes exactly the integer at the front of the span, or refuses a span that is too short and leaves it alone. |
| `Storage.DecodeStorage.Allocate` | services/desktop-mode/telar_client/codecs/telar_wire.hpp:149-178 | A carved list is aligned, inside the buffer and apart from every earlier one; the storage refuses exactly when no aligned place is left and then is unchanged. |
| `Storage.AlignIsLeast` | services/desktop-mode/telar_client/codecs/telar_wire.hpp:162-169 | The aligned place is the first there is: alignment wastes nothing. |
| `StoredDecodes.DecodeStored` | services/desktop-mode/telar_client/codecs/telar_value_codec.hpp:391-442 | Over one caller-supplied storage, for every schema and input: unless the storage refuses a list, the outcome is that of decoding on values and the object in memory, with every list it refers to, is the value decoded; everything stored before is left as it was; it fails exactly when decoding fails or a list is refused, and none is refused when the greatest counts of its lists leave room. |
| `StoredDecodes.FillList` | services/desktop-mode/telar_client/serializers/telar_serializer.hpp:140-154 | A list carved earlier is filled element by element; each element is whole when the filling ends, and nothing below the storage's mark but the list itself changes, whatever the elements carve. |
| `StoredDecodes.StillShows` | services/desktop-mode/telar_client/serializers/telar_serializer.hpp:140-154 | An object in memory, and all the lists it refers to, survive every write that only touches bytes no object holds. |
| `StoredDecodes.ShownIsLoaded` | services/desktop-mode/telar_client/codecs/telar_value_codec.hpp:391-442 | What is read back from memory is the one value the object there stands for. |
| `StoredDecodes.MomentAfterCount` | services/desktop-mode/telar_client/serializers/telar_serializer.hpp:120-127 | A list is carved after its count was read and no later than its items. |
| `StoredFrames.DecodeFrameStored` | services/desktop-mode/telar_client/serializers/telar_frame.hpp:167-196 | A frame decoded into one storage, spans carved at their count and filled behind the metadata's links and runs, reads back as exactly the frame decoded on values; it fails exactly when that does or the storage refuses a list. |
| `StoredFrames.FrameMoments` | services/desktop-mode/telar_client/serializers/telar_frame.hpp:331-336 | The spans of a frame are carved before its cursor shape and metadata are read; links and runs together, before either is filled. |
| `StoredFrames.FrameRoomIs` | services/desktop-mode/telar_client/serializers/telar_frame.hpp:317-336 | Each list of a frame at its greatest count, and what alignment may waste, come to 124941 bytes: a storage with that much left never refuses a frame. |
| `Workspaces.ReceiveWorkspaceList` | services/desktop-mode/runtime_receiver_worker.cppm:16-19 | The receiver's decode buffer never refuses a list: whatever the elements take in memory, and wherever the buffer lies, a workspace list is decoded into it exactly as on values. |
| `Workspaces.CapacitySuffices` | services/desktop-mode/runtime_receiver_worker.cppm:16-19 | The buffer's size is what the two lists of a workspace list take at most, and two bytes more. |
| `Workspaces.WorkspaceListCodec` | services/desktop-mode/telar_client/serializers/telar_protocol.hpp:1610-1627 | Workspace lists, with their texts and optional values, decode to what was encoded, and each has one encoding. |
| `WorkspaceBytes.ListForm` | services/desktop-mode/telar_client/serializers/telar_messages.hpp:864-899 | A payload that parses as a workspace list is exactly the tag, the revision, and each list behind its count, with every field of every workspace and worktree in its place. |
| `Schemas.SizeIsLength` | services/desktop-mode/telar_client/serializers/telar_serializer.hpp:189-194 | For every schema and valid value the precomputed size is the number of bytes encoding writes. |
| `Schemas.AtLeastMinWidth` | services/desktop-mode/telar_client/serializers/telar_serializer.hpp:176-189 | No valid value encodes in fewer bytes than the schema's least width. |
| `Schemas.DemandIsMet` | services/desktop-mode/telar_client/codecs/telar_value_codec.hpp:395-409 | What a counted list or a length announced ahead demands of the remaining input never exceeds what its encoding supplies, so the early truncation checks never refuse a valid list. |
| `Schemas.EarlyCheck` | services/desktop-mode/telar_client/serializers/telar_serializer.hpp:123-125 | A check announced ahead takes no bytes and refuses exactly an input too short for the counts it names. |
| `Schemas.RoundTrip` | services/desktop-mode/telar_client/serializers/telar_serializer.hpp:196-211 | For every self-delimiting schema, decoding an encoding followed by any bytes returns the value and exactly those bytes. |
| `Schemas.Canonical` | services/desktop-mode/telar_client/serializers/telar_serializer.hpp:202-211 | Whatever decodes is valid, and its encoding followed by the rest is the input: each value has one encoding, in every schema. |
| `Codecs.EncodeInto` | services/desktop-mode/telar_client/serializers/telar_serializer.hpp:196-200 | The writing pass behind the validators and the size pass: it succeeds exactly on valid values, and what it has written then or when it fails is the encoding up to the first number out of its range. |
| `Codecs.EncodeMessage` | services/desktop-mode/telar_client/codecs/telar_codec.hpp:198-230 | Writes tag and body exactly when the message is valid, within the payload limit and fits. The buffer is untouched exactly when the validators, the limit or the room refuse; when only a number is out of its range, the tag and everything before that number have been written. |
| `PreparedValues.RelaxValid` | services/desktop-mode/telar_client/codecs/telar_value_codec.hpp:30-70 | What the validators and the size pass let through contains every valid value, with the same bytes, and a valid value is written to its end. |
| `PreparedValues.StopsShort` | services/desktop-mode/telar_client/codecs/telar_value_codec.hpp:30-70 | For every schema and every value the first passes let through, writing reaches the end exactly when the value is valid, and stops short of it otherwise. |
| `Codecs.DecodeFrom` | services/desktop-mode/telar_client/serializers/telar_serializer.hpp:202-211 | The reading pass returns what decoding returns and leaves the span at the rest, refusing exactly what decoding refuses. |
| `Codecs.DecodeMessage` | services/desktop-mode/telar_client/codecs/telar_codec.hpp:288-307 | Decodes exactly the payloads that are a tag, one body and nothing after it. |
| `Codecs.MessageRoundTrip` | services/desktop-mode/telar_client/codecs/telar_codec.hpp:213-307 | Decoding the payload of a message returns the message. |
| `Codecs.MessageCanonical` | services/desktop-mode/telar_client/codecs/telar_codec.hpp:288-307 | A payload that decodes is the payload of what it decoded to. |
| `Codecs.BodyRoundTrip` | services/desktop-mode/telar_client/codecs/telar_value_codec.hpp:445-484 | Decoding the body of a value returns the value. |
| `Codecs.BodyCanonical` | services/desktop-mode/telar_client/codecs/telar_value_codec.hpp:445-484 | A body that decodes is the body of what it decoded to. |
| `NumberRecords.NumbersValid` | services/desktop-mode/telar_client/codecs/telar_value_codec.hpp:30-51 | A record of numbers is valid exactly when each number is within its field's bounds and width. |
| `Cells.SameStyleSameForm` | services/desktop-mode/telar_client/serializers/telar_cells.hpp:20-43 | Styles are equal, ignoring the channels their colours do not use, exactly when they have the same wire form. |
| `Cells.CellReader.Next` | services/desktop-mode/telar_client/codecs/telar_cells.hpp:11-37 | Each call yields the next cell of the run the reader was opened on, ends where it ends and fails where it fails. |
| `Cells.Readable` | services/desktop-mode/telar_client/serializers/telar_frame.hpp:341-346 | The check a span gets before it is written: passes exactly the readable runs. |
| `Cells.EncodedSize` | services/desktop-mode/telar_client/codecs/telar_cells.hpp:46-58 | The size pass gives the length of the encoded run, refusing invalid cells and runs over the limit. |
| `Cells.EncodeRunInto` | services/desktop-mode/telar_client/codecs/telar_cells.hpp:59-77 | The writing pass puts exactly the encoded run at the front of the buffer, or changes nothing. |
| `Cells.RunRoundTrip` | services/desktop-mode/telar_client/codecs/telar_cells.hpp:11-77 | Reading what was written returns cells equal to those written. |
| `CellBytes.CellForm` | services/desktop-mode/telar_client/codecs/telar_cells.hpp:59-77 | A cell starts with a byte that holds its text length in the low five bits, its width in the next two and whether a style follows in the top one; then come the style, only if it differs from the cell before, and the text. |
| `CellBytes.StyleForm` | services/desktop-mode/telar_client/serializers/telar_cells.hpp:58-90 | A style is its flags and three colours, each its kind and the channels that kind uses. |
| `Cells.FlagsMean` | services/desktop-mode/telar_client/serializers/telar_cells.hpp:38-42 | Style flags are accepted exactly when bits 11 to 15 are clear and bits 8 to 10 name an underline style. |
| `Cells.EncodingIsShortest` | services/desktop-mode/telar_client/codecs/telar_cells.hpp:46-77 | Among all byte strings the reader accepts for a list of cells the encoder's is the only one of least length. |
| `Cells.ReencodingNeverGrows` | services/desktop-mode/telar_client/codecs/telar_cells.hpp:11-77 | Re-encoding any accepted run gives the same cells in no more bytes. |
| `Frames.ValidateLinks` | services/desktop-mode/telar_client/serializers/telar_frame.hpp:99-109 | Accepts exactly the links that tile the URI bytes in order. |
| `Frames.ValidateRuns` | services/desktop-mode/telar_client/serializers/telar_frame.hpp:110-121 | Accepts exactly hyperlink runs that are ordered, inside the grid, within one row each and name a link. |
| `Frames.ValidateMetadata` | services/desktop-mode/telar_client/serializers/telar_frame.hpp:84-122 | Accepts exactly the text metadata whose counts, row flags, links and runs are right for the grid. |
| `Frames.ValidateSpans` | services/desktop-mode/telar_client/serializers/telar_frame.hpp:281-289 | Accepts exactly spans that are non-empty, ordered, disjoint and inside the grid. |
| `Frames.Validate` | services/desktop-mode/telar_client/serializers/telar_frame.hpp:269-296 | Accepts exactly valid frames: header, cursor, scroll, spans, snapshot rule and metadata. |
| `Frames.LinksPartitionUris` | services/desktop-mode/telar_client/serializers/telar_frame.hpp:99-131 | For accepted metadata every link lookup succeeds and the link texts, in order, are exactly the URI bytes. |
| `Frames.SpansFitGrid` | services/desktop-mode/telar_client/serializers/telar_frame.hpp:281-289 | The spans of an accepted frame together cover no more cells than the grid has. |
| `FrameCodec.FrameValid` | services/desktop-mode/telar_client/serializers/telar_frame.hpp:299-339 | The schema of a frame accepts exactly the frames the validator accepts whose enums and span bytes fit their fields. |
| `FrameCodec.FrameInverse` | services/desktop-mode/telar_client/serializers/telar_frame.hpp:299-336 | Reading a frame's wire value gives the frame back, the early span count and the nested metadata included. |
| `FrameCodec.FrameOfValid` | services/desktop-mode/telar_client/serializers/telar_frame.hpp:299-336 | Every wire value the schema accepts is the value of a frame. |
| `FrameCodec.FrameSizeIs` | services/desktop-mode/telar_client/serializers/telar_frame.hpp:144-152 | The size of a frame is 57 bytes of fixed fields, its framed metadata, and 12 bytes and the cells of each span. |
| `FrameCodec.MetadataValid` | services/desktop-mode/telar_client/serializers/telar_frame.hpp:141-215 | The metadata schema accepts exactly metadata whose counts fit, and its size is the sum of its parts. |
| `PreparedFrames.FrameReady` | services/desktop-mode/telar_client/serializers/telar_frame.hpp:269-296 | The encoder starts to write exactly the frames the validator accepts whose runs fit their length fields, whatever their enums. |
| `PreparedFrames.UnknownPointer` | services/desktop-mode/telar_client/serializers/telar_frame.hpp:269-336 | Any encodable frame given a pointer shape above 33 still passes the validator and the size pass, and stops the writing after 44 bytes of its body. |
| `FrameBudgets.UnknownPointerWitness` | services/desktop-mode/telar_client/serializers/telar_frame.hpp:327 | A concrete frame, readable and accepted by the validator, that is given up after its tag and 44 bytes are in the buffer. |
| `FrameMessages.EncodeFrame` | services/desktop-mode/telar_client/serializers/telar_frame.hpp:338-353 | Encodes a frame exactly when it is valid, every run reads cleanly and the payload fits limit and buffer, and what it then wrote is the frame byte for byte. The buffer is untouched exactly when the validator, the limit or the room refuse; an unreadable run leaves the tag alone written, an enum out of its range everything before it. |
| `FrameMessages.FrameRoundTrip` | services/desktop-mode/telar_client/serializers/telar_frame.hpp:299-354 | Decoding the payload of a frame returns the same frame. |
| `FrameMessages.FrameCanonical` | services/desktop-mode/telar_client/serializers/telar_frame.hpp:299-354 | A payload that decodes to a frame with readable runs is that frame's payload. |
| `FrameMessages.FrameLayout` | services/desktop-mode/telar_client/serializers/telar_frame.hpp:299-336 | Every payload of a frame, written or parsed, is tag, grid, cursor, mouse, modes, pointer shape, scroll, span count, cursor shape and blink, metadata behind its length, and the spans, in these bytes and this order. |
| `FrameBytes.MetadataPacked` | services/desktop-mode/telar_client/serializers/telar_frame.hpp:150-166 | Metadata is its status, four counts, row flags, links, runs and URI bytes, in these bytes and this order. |
| `FramePlaces.FrameOffsets` | services/desktop-mode/telar_client/serializers/telar_frame.hpp:299-331 | The numbers of a frame lie at fixed offsets, little-endian: columns at 25, rows at 27, cursor at 30 and 32, scroll at 46 and 50, span count at 54. |
| `FramePlaces.FrameFlags` | services/desktop-mode/telar_client/serializers/telar_frame.hpp:305-334 | The flags and enums of a frame lie at fixed offsets: tag at 0, mouse from 34, modes from 37, pointer shape at 45, cursor shape and blink at 56 and 57. |
| `FrameMessages.PayloadSize` | services/desktop-mode/telar_client/serializers/telar_frame.hpp:338-353 | A frame has a payload exactly when it is valid, readable and within the limit, and its length is the computed size. |
| `FrameMessages.SnapshotFits` | services/desktop-mode/telar_client/serializers/telar_frame.hpp:269-336 | Every valid snapshot with a readable run encodes within the payload limit, on every grid the validator accepts. |
| `FrameBudgets.BoundAttained` | services/desktop-mode/telar_client/serializers/telar_messages.hpp:659-660 | The bound on snapshots is met: on every accepted grid with room for 2048 hyperlink runs some valid readable snapshot is exactly that large. |
| `Layouts.Validate` | services/desktop-mode/telar_client/serializers/telar_messages.hpp:1064-1096 | The counting loop accepts exactly the specified node lists; its 64-entry pane array never overflows. |
| `Layouts.AcceptsIffLayout` | services/desktop-mode/telar_client/serializers/telar_messages.hpp:1064-1096 | A node list is accepted exactly when it is the preorder of a binary split tree of at most 127 nodes with distinct panes, the focused one among them. |
| `Layouts.LayoutTreeIsUnique` | services/desktop-mode/telar_client/serializers/telar_messages.hpp:1064-1096 | The tree a node list is the preorder of is unique. |
| `Layouts.LeafCount` | services/desktop-mode/telar_client/serializers/telar_messages.hpp:1064-1096 | A tree of n panes is listed in 2n - 1 nodes, its panes the leaves. |
| `Layouts.LayoutValid` | services/desktop-mode/telar_client/serializers/telar_messages.hpp:1057-1096 | The codec takes exactly layouts that are split trees and fit their fields. |
| `Layouts.LayoutEncodes` | services/desktop-mode/telar_client/serializers/telar_messages.hpp:1057-1096 | Every layout that is a split tree and fits its fields encodes: the payload limit never refuses one. |
| `Layouts.LayoutRoundTrip` | services/desktop-mode/telar_client/serializers/telar_messages.hpp:1014-1096 | Every valid layout encodes, and decoding the encoding returns it. |
| `Layouts.LayoutCanonical` | services/desktop-mode/telar_client/serializers/telar_messages.hpp:1014-1096 | Bytes that decode are the encoding of the layout they decode to, and that layout is a split tree. |
| `LayoutBytes.LayoutForm` | services/desktop-mode/telar_client/serializers/telar_messages.hpp:1014-1062 | Every body of a layout, written or parsed, is workspace, tab and focus, two flags, the node count and the nodes, a pane tagged 0 and a split 1, in these bytes and this order. |
| `Utf8.Validate` | services/desktop-mode/telar_client/codecs/telar_value_codec.hpp:101-130 | Accepts exactly the encodings of sequences of Unicode scalar values (sections 3 and 4 of RFC 3629), reading no byte past the end. |
| `Utf8.TakesScalar` | services/desktop-mode/telar_client/codecs/telar_value_codec.hpp:105-128 | A sequence the recogniser takes is the encoding of a scalar value. |
| `Utf8.ScalarTaken` | services/desktop-mode/telar_client/codecs/telar_value_codec.hpp:105-128 | The encoding of every scalar value is taken, with its length, whatever follows. |
| `Utf8.SpellsOnce` | services/desktop-mode/telar_client/codecs/telar_value_codec.hpp:101-130 | A well-formed text spells one sequence of scalar values only. |
| `Texts.TextMeans` | services/desktop-mode/telar_client/codecs/telar_value_codec.hpp:136-160 | The checks on the bytes of a text accept exactly the spellings of characters none of which its kind refuses: control bytes in well-formed text are control characters. |
| `Texts.TextBodies` | services/desktop-mode/telar_client/codecs/telar_value_codec.hpp:162-192 | A body that holds one sized text is accepted exactly when it is the length and the spelling of allowed characters within the bounds, and then decodes to that text. |
| `Texts.SizedBodies` | services/desktop-mode/telar_client/codecs/telar_value_codec.hpp:209-241 | The same for any sized field with a minimum, a maximum and a rule. |
| `Texts.OptionalBodies` | services/desktop-mode/telar_client/codecs/telar_value_codec.hpp:332-357 | An optional value is a flag of 0 or 1 and the value behind a 1; decoding its body returns it. |
| `Streams.Socket.ReadAll` | services/desktop-mode/telar_client/telar_client.hpp:208-230 | Reads exactly the bytes asked for under any pattern of short reads and interrupts, failing only on an error or the end of the stream. |
| `Streams.Socket.WriteAll` | services/desktop-mode/telar_client/telar_client.hpp:184-206 | Writes exactly the bytes given under any such pattern; a failure leaves a prefix written. |
| `Streams.Socket.SendFrame` | services/desktop-mode/telar_client/telar_client.hpp:128-139 | A sent payload appears on the stream as its length in four little-endian bytes and its bytes; a failed send leaves a prefix of that. |
| `Streams.Socket.ReceiveFrame` | services/desktop-mode/telar_client/telar_client.hpp:141-153 | Returns a payload only when the stream starts with its frame, which it removes; once the four length bytes arrive it reports a bad length exactly when the announced one is outside the limits, whatever follows. |
| `Streams.Socket.ReceiveAll` | services/desktop-mode/telar_client/telar_client.hpp:141-153 | Repeated receives return a prefix of the payloads sent, in order, and all of them when no call failed. |
| `Streams.StreamIsInjective` | services/desktop-mode/telar_client/telar_client.hpp:128-153 | A stream of frames determines the payloads sent. |
| `Streams.StreamSnoc` | services/desktop-mode/telar_client/telar_client.hpp:128-139 | Sending one more payload appends its frame to the stream of those before it. |
| `ImageSafety.ReleasedHasRoom` | lib/window/vulkan/vulkan_images.c:421-429 | While some slot is ready the released list is not full, so the guard on its capacity never refuses a release. |
| `ImageSafety.PrepareMakes` | lib/window/vulkan/vulkan_images.c:221-229 | An image is only ever made in a slot that holds none: none is overwritten, whatever part of the creation fails. |
| `ImageSafety.DestroyConserved` | lib/window/vulkan/vulkan_images.c:488-508 | Destruction destroys every object still alive and none a second time. |
| `ImageRuns.StepSafe` | lib/window/vulkan/vulkan_images.c:254-302 | Every step of the window thread, the upload thread and the frame worker is defined and keeps the whole invariant. |
| `ImageRuns.RunSafe` | lib/window/vulkan/vulkan_images.c:254-508 | The invariant holds after every run, under every interleaving. |
| `ImageRuns.ImagesAccountedFor` | lib/window/vulkan/vulkan_images.c:80-98 | Each object ever made is in exactly one place - a slot, the fallback, the released list, the upload thread's batch, destroyed - and after destruction each was destroyed exactly once. |
| `ImageRuns.FreeSlotOwnsNothing` | lib/window/vulkan/vulkan_images.c:80-98 | In every reachable state a free slot owns nothing, after failed and half-built uploads too. |
| `ImageRuns.UploadingIffPending` | lib/window/vulkan/vulkan_images.c:266-302 | A slot is uploading exactly when one queued or running upload names it; otherwise none does. |
| `ImageRuns.ReleasesAllTaken` | lib/window/vulkan/vulkan_images.c:419-430 | After a frame's releases every ready slot named is free and every other slot is as it was. |
| `ImageRuns.BoundImageIsLive` | lib/window/vulkan/vulkan_images.c:476-484 | The set found for a handle shows a whole image that is neither released, nor being destroyed, nor destroyed, nor being written. |
| `ImageRuns.DrawnImagesStay` | lib/window/vulkan/vulkan_images.c:476-484 | While a frame is drawn no step of any thread touches the images it bound. |
| `ImageRuns.OfferAnswered` | lib/window/vulkan/vulkan_images.c:435-455 | An upload is queued exactly when there is room in flight, it is valid and its slot free or a spare of its size, whose image it keeps; any other is answered with failure unless its handle is out of range or already uploading or the completions are full. |
| `ImageRuns.PacedRunKept` | lib/window/vulkan/vulkan_images.c:291-294 | Under a client limit no larger than the ring, queued, running and unreported stay within it and every decision is reported or waiting, once and in order. |
| `ImageRuns.NoLossIff` | lib/window/vulkan/vulkan_images.c:443-450 | Completions are never dropped if and only if the client keeps at most 16 uploads in flight: above that a concrete run loses one through the reject path. |
| `ImageRuns.ClientLimitSuffices` | lib/window/native/telar_gui.h:22-23 | The documented limit of four uploads in flight loses no completion. |
| `ImageRuns.UploadsDecidedInOrder` | lib/window/vulkan/vulkan_images.c:266-302 | Accepted uploads are decided once each, in order; a ready slot shows the success of the last upload of its handle. |
| `ImageRuns.ReportedExactlyOnce` | lib/window/vulkan/vulkan_images.c:286-296 | For a client within the ring the k-th accepted upload, once decided, has exactly one place among the completions reported or waiting, with its handle and the outcome that decided its slot, in order; with nothing in flight every accepted upload was reported. |
| `ImageRuns.PositionOfFinish` | lib/window/vulkan/vulkan_images.c:286-296 | Every decision of the upload thread is that of exactly one accepted upload. |
| `ImageOutcomes.SuccessShows` | lib/window/vulkan/vulkan_images.c:276-294 | After an upload succeeded its slot is ready and holds the very image that was drawn into, at the upload's size, in every later state of every run, until the handle is released, another upload to it is accepted or the pool is destroyed; its set is found and none of its objects is destroyed. |
| `ImageOutcomes.FinishDecides` | lib/window/vulkan/vulkan_images.c:286-293 | Success keeps the slot's image and size, makes it ready and destroys nothing; failure empties the slot and destroys exactly its image; no other slot changes. |
| `ImageOutcomes.PrepareDecides` | lib/window/vulkan/vulkan_images.c:221-229 | An upload gets an image exactly when its slot holds one already, or the device takes the size and all three objects are made; the slot then has the upload's size. |
| `ImageOutcomes.DrawnImageStays` | lib/window/vulkan/vulkan_images.c:266-286 | From its preparation to its decision an upload keeps its image, whatever the other threads do. |
| `ImageOutcomes.ReleaseHandsOver` | lib/window/vulkan/vulkan_images.c:89-98 | A taken release hands the slot's image to the upload thread; the window thread destroys nothing. |
| `ImageOutcomes.LookupBinds` | lib/window/vulkan/vulkan_images.c:476-484 | The set of a handle is found exactly while its slot is ready, and drawing with it binds it until the frame ends. |
| `ImageRuns.ReleasedThenUploaded` | lib/window/native/telar_gui.h:151-155 | One frame may release a handle and upload to it: the upload is queued and starts from an empty slot. |
| `ImagePools.RingPush` | lib/window/vulkan/vulkan_images.c:453-455 | Writing behind the last entry of the ring appends to the queue. |
| `ImagePools.RingPop` | lib/window/vulkan/vulkan_images.c:280-283 | Advancing the head of the ring removes the oldest request. |
| `ImagePools.ImagePool.constructor` | lib/window/vulkan/vulkan_images.c:347-408 | Creation starts from the empty pool with its fallback uploaded, or stops half-built. |
| `ImagePools.ImagePool.AcceptFrame` | lib/window/vulkan/vulkan_images.c:419-457 | Over the shared arrays, takes all releases and then at most four uploads, exactly one step of the model. |
| `ImagePools.ImagePool.OfferUpload` | lib/window/vulkan/vulkan_images.c:435-455 | One upload of a frame: refused, answered or queued as the model says. |
| `ImagePools.ImagePool.ReleaseSlot` | lib/window/vulkan/vulkan_images.c:89-98 | One release moves the slot's image to the released list and frees the slot. |
| `ImagePools.ImagePool.TakeCompletions` | lib/window/vulkan/vulkan_images.c:461-474 | Returns every completion there is and forgets it. |
| `ImagePools.ImagePool.Set` | lib/window/vulkan/vulkan_images.c:476-484 | Returns the set of a ready handle and nothing for any other. |
| `ImagePools.ImagePool.Turn` | lib/window/vulkan/vulkan_images.c:266-285 | The thread stops, else takes the whole released list, else starts the oldest upload of the ring, in that order of preference. |
| `ImagePools.ImagePool.DestroyImage` | lib/window/vulkan/vulkan_images.c:254-264 | Destroys one image of the batch with the mutex released. |
| `ImagePools.ImagePool.PrepareSlot` | lib/window/vulkan/vulkan_images.c:221-229 | Reuses the image the slot holds or makes one, of which any part may fail; drawing goes on exactly when the slot then holds a whole image of the upload's size. |
| `ImagePools.ImagePool.FinishRunning` | lib/window/vulkan/vulkan_images.c:286-296 | On success the slot is ready with its image and the upload's size and nothing is destroyed; on failure the slot is empty and exactly its image destroyed; the completion is posted while there is room. |
| `ImagePools.ImagePool.Destroy` | lib/window/vulkan/vulkan_images.c:488-508 | Destroys every slot, the released images and the fallback. |
| `Bands.Upload` | lib/window/vulkan/vulkan_images.c:221-252 | The bands tile the rows within the staging buffer, only the first prepares and only the last hands over the image, and on success the image holds the pixels, RGB made opaque RGBA; it fails exactly at the first refused submission. |
| `Bands.PaintedPixels` | lib/window/vulkan/vulkan_images.c:236-247 | Pixel by pixel the image holds red, green and blue as given, and the opacity as given or full. |
| `Bands.Stage` | lib/window/vulkan/vulkan_images.c:236-247 | One band of pixels in the staging buffer, RGB expanded. |
| `Bands.BandFits` | lib/window/vulkan/vulkan_images.c:230-231 | A band fits the staging buffer, and a full one has at least 64 rows. |
| `Bands.EachRowOnce` | lib/window/vulkan/vulkan_images.c:233-249 | Every row lies in exactly one band. |
| `Textures.UploadIsWhole` | lib/window/vulkan/vulkan_resources.c:190-238 | Patching the changed rows of a texture that holds the base version leaves exactly the page a whole upload leaves. |
| `TextureRuns.PrepareShows` | lib/window/vulkan/vulkan_resources.c:260-355 | After any prepare every uploaded texture holds the page of its version; after one that succeeds and draws the device shows exactly the frame's pages. |
| `Textures.PrepareSucceedsIff` | lib/window/vulkan/vulkan_resources.c:260-355 | A frame is prepared exactly when its diagrams pass the host's check and either it draws nothing, or quads and pages are there and within the limits and every allocation needed - none for a page or diagram held at its size - succeeds. |
| `Textures.UndrawnLeavesPages` | lib/window/vulkan/vulkan_resources.c:260-345 | A prepare that fails commits no version; one that draws nothing touches no page, and empties exactly the diagrams that are gone or of another size. |
| `Textures.UploadRows` | lib/window/vulkan/vulkan_resources.c:190-238 | A texture that holds its version is left alone, one that holds the base version gets exactly the changed rows, any other the whole page. |
| `TextureRuns.RunShows` | lib/window/vulkan/vulkan_resources.c:260-355 | Over every run of frames, skipped, failed and resized ones included, a frame is prepared exactly when its checks and needed allocations succeed, and one that draws then finds exactly its own pages. |
| `TextureRuns.QuotaKept` | lib/window/vulkan/vulkan_resources.c:265-273 | The live diagram textures never exceed the quota, whichever allocation fails. |
| `Resources.Pool.UploadTexture` | lib/window/vulkan/vulkan_resources.c:190-238 | Copies exactly the rows to upload through the staging buffer and commits the version. |
| `Resources.Pool.DropObsolete` | lib/window/vulkan/vulkan_resources.c:265-273 | Destroys exactly the diagram slots that are empty or of another size in the frame. |
| `Resources.Pool.AllocateAll` | lib/window/vulkan/vulkan_resources.c:287-333 | Makes every image the frame needs, in order, stopping at the first failure. |
| `Resources.Pool.PrepareFrame` | lib/window/vulkan/vulkan_resources.c:260-355 | One frame over the object's own fields is one step of the run model, and succeeds exactly when its checks and the allocations it needs do. |
| `Clipboards.StepSafe` | lib/window/linux/clipboard.c:54-167 | Every step of either thread keeps the hand-over invariant. |
| `Clipboards.RunSafe` | lib/window/linux/clipboard.c:54-224 | The invariant holds after every run, under every interleaving. |
| `Clipboards.DescriptorsSafe` | lib/window/linux/clipboard.c:67-167 | No descriptor is closed twice, and what was written to it is a prefix of the clipboard as it was at the request, whatever was published since. |
| `Clipboards.AllClosed` | lib/window/linux/clipboard.c:206-224 | Once destroy returned every descriptor was closed exactly once, even one handed over after the worker failed. |
| `Clipboards.WritesOnlyWhileOpen` | lib/window/linux/clipboard.c:113-128 | Nothing is written to a closed descriptor, and bytes are only ever appended. |
| `Clipboards.CompleteWhenDone` | lib/window/linux/clipboard.c:118-128 | After a write the descriptor is closed exactly when the whole snapshot was written. |
| `ClipboardProgress.ClosedIsComplete` | lib/window/linux/clipboard.c:100-131 | Under every interleaving in which neither destruction began nor poll failed, a request handed to the worker is closed only with its whole snapshot written, unless its receiver was found lost. |
| `ClipboardProgress.RoundDelivers` | lib/window/linux/clipboard.c:72-131 | From the top of its loop, when the pipes take all they are given, the worker writes every transfer in use to its end, closes it and gives its slot back within one round. |
| `ClipboardProgress.ScanCloses` | lib/window/linux/clipboard.c:101-131 | One look closes a descriptor only when its snapshot is then complete or its receiver was lost. |
| `ClipboardProgress.NothingReady` | lib/window/linux/clipboard.c:103-117 | A slot that was not watched, whose pipe is full, or whose write is to be tried again is left alone, and so is its descriptor. |
| `ClipboardProgress.WriteDelivers` | lib/window/linux/clipboard.c:119-131 | A write hands over exactly the next bytes of the snapshot, and closes the descriptor exactly when they were the last. |
| `ClipboardProgress.LostCloses` | lib/window/linux/clipboard.c:107-124 | A lost receiver costs its own transfer only: that descriptor is closed with what it got. |
| `Clipboards.GoneClosed` | lib/window/linux/clipboard.c:206-224 | In every safe state after destroy all descriptors are closed once. |
| `ClipboardObjects.Clipboard.PublishOffer` | lib/window/linux/clipboard.c:226-252 | An offer that fits replaces the clipboard, byte for byte, unless the worker stopped or failed; otherwise the clipboard and its source stay as they were, and no slot's copy changes either way. |
| `ClipboardObjects.Clipboard.SendSelection` | lib/window/linux/clipboard.c:144-167 | One request, with the worker taking any steps between two looks at the slots: the descriptor was closed once - always when the worker stopped, the source is old or the type unknown - or a slot in use holds it with a copy of the clipboard. |
| `ClipboardObjects.Clipboard.FillSlot` | lib/window/linux/clipboard.c:155-159 | The copy loop leaves in the slot exactly the clipboard's bytes, and every other slot's bytes as they were. |
| `ClipboardObjects.Clipboard.WriteBytes` | lib/window/linux/clipboard.c:113-117 | The descriptor gains exactly the slot's next bytes and the offset moves behind them. |
| `ClipboardObjects.Clipboard.RunWorker` | lib/window/linux/clipboard.c:67-141 | However long the worker runs, the clipboard, the request being served and every slot not in use stay as they were; a descriptor gets a prefix of its snapshot and is closed at most once, and only when that is complete, unless a receiver was lost or the worker left its loop. |
| `ClipboardObjects.Clipboard.Destroy` | lib/window/linux/clipboard.c:206-224 | Destroy tells the worker to stop, joins it and sweeps the slots: once it is joined every descriptor ever handed over was closed exactly once. |
| `Sweep.Analyze` | tools/gui_slot_probe.py:38-80 | The one-pass sweep returns, for the clipped window, exactly the numbers of instants in which the replayed state was dirty and busy, and past its deadline as well; it refuses exactly incomplete traces and windows that miss the trace. |
| `Sweep.ClipCounts` | tools/gui_slot_probe.py:69-76 | Clipping the stretch between two events counts the window's instants in it. |
| `Sweep.InstantsAre` | tools/gui_slot_probe.py:60-66 | The totals count the instants at which the state was dirty, busy, visible and not closed, and past its deadline where that is asked. |
| `Sweep.BusyIsLastWord` | tools/gui_slot_probe.py:72-106 | At any point of the trace a window is busy exactly if the last event to speak of it said so: a wait began, or a state was given with the flag set and no completion. |
| `Sweep.DirtyIsLastWord` | tools/gui_slot_probe.py:72-90 | The same for dirty: a request while open, or a given state, and no preparation since. |
| `Sweep.ClosedIsLastWord` | tools/gui_slot_probe.py:72-109 | The same for closed. |
| `Sweep.StatedIsLastWord` | tools/gui_slot_probe.py:72-77 | Visibility and deadline are those of the last state given. |
| `Sweep.HappenedAre` | tools/gui_slot_probe.py:57-70 | In a sorted trace the events that happened by an instant are those not later than it. |
| `Sweep.AdjacentWindows` | tools/gui_slot_probe.py:50-76 | Totals over two adjacent windows add up to the total over their union. |
| `Sweep.TotalsAddUp` | tools/gui_slot_probe.py:50-76 | The same for the windows an analysis clips to, and eligible time never exceeds dirty and busy time. |
| `Reports.RunReports` | src/cli/integration/opencode.ts:56-118 | Over every run of handlers: what reached the hook is a subsequence of what was accepted; the queue is the newest payloads, at most 32; one is dropped only with 32 newer accepted, the latest never; exactly one started attempt is uncompleted while a delivery runs and none otherwise; nothing waits unless one runs; a busy pane or open prompt has its timer set. |
| `Reports.StepSafe` | src/cli/integration/opencode.ts:141-275 | Every handler and every event of any attempt's child keeps the queue right, the last attempt the only one that may be uncompleted, and the refresh timer set. |
| `Reports.DrainSafe` | src/cli/integration/opencode.ts:56-85 | Draining attempts each payload once, in order, and leaves nothing waiting without a delivery running. |
| `Reports.SendSafe` | src/cli/integration/opencode.ts:104-118 | A payload that fits is accepted; only one with 32 newer ones is ever dropped. |
| `Reports.CompleteSafe` | src/cli/integration/opencode.ts:56-85 | However often and in whatever order its child fails and closes, an attempt completes once, and the queue stays right. |
| `Reports.ReportSpeaks` | src/cli/integration/opencode.ts:141-155 | A report is accepted exactly when it fits and session, activity or open prompt differ from what was last told or a renewal is due; it carries the event, the pane's session, its own activity and what blocks it - a permission if one is pending, else a question - and no title. |
| `Reports.ChatMessageDoes` | src/cli/integration/opencode.ts:211-216 | A prompt of the user, not a subagent's, makes its session the root and the pane busy, and that is what is reported. |
| `Reports.StatusDoes` | src/cli/integration/opencode.ts:229-236 | A status makes the pane busy or idle, an idle one ends its prompts, and the report says so. |
| `Reports.AskedDoes` | src/cli/integration/opencode.ts:238-247 | A permission or question is pending from then on, in its old place when it was asked before, and the report shows what blocks the pane. |
| `Reports.AnsweredDoes` | src/cli/integration/opencode.ts:248-253 | A reply ends its own prompt and no other, and the pane is reported. |
| `Reports.ToolDoes` | src/cli/integration/opencode.ts:195-208 | A tool call is reported whenever it fits, with what blocks the pane and nothing of its activity. |
| `Reports.SessionInfoDoes` | src/cli/integration/opencode.ts:159-173 | A session with a parent is a subagent's from then on; the root's title is reported once for each change, and the first session heard of becomes the root. |
| `Reports.DisposeDoes` | src/cli/integration/opencode.ts:261-275 | The last instance reports its exit, naming the session only, and forgets activity, prompts and what was told. |
| `Reports.LoadDoes` | src/cli/integration/opencode.ts:186-190 | The first instance reports the state it starts in. |
| `Reports.NewestIsLast` | src/cli/integration/opencode.ts:122-130 | The prompt found is the newest of its kind. |
| `Reports.DeliveredInOrder` | src/cli/integration/opencode.ts:56-85 | Deliveries form a subsequence of the accepted payloads. |
| `Reports.Plugin.FindPrompt` | src/cli/integration/opencode.ts:122-130 | One scan of the prompt map in insertion order finds the newest permission, else the newest question. |
| `Reports.Plugin.SetPrompt` | src/cli/integration/opencode.ts:238-247 | Setting a prompt in the map keeps the place of an id that is there and appends a new one. |
| `Reports.Plugin.DeletePrompt` | src/cli/integration/opencode.ts:248-253 | Deleting a prompt removes exactly its entry and keeps the order of the rest. |
| `Reports.Plugin.DrainQueue` | src/cli/integration/opencode.ts:56-85 | The recursive drain, whose starts may throw any number of times, hands over in order exactly the payloads the closed form says: those whose start throws and the first whose start works. |
| `Reports.Plugin.OnChildEvent` | src/cli/integration/opencode.ts:67-80 | A completion that already ran does nothing; any other lets the next delivery start, and at most one is outstanding after it. |
| `Reports.Plugin.Handle` | src/cli/integration/opencode.ts:141-275 | Every handler over the prompt map, the queue and the flags is one step of the run model: the invariant holds after it, what reached the hook stays, at most one delivery is outstanding. |

## Left out

- Frames as one flat record: the model groups the fields of a frame in nested records; the bytes are the same.
- StoredDecodes.DecodeStored: models the storage as a memory of bytes that each belong to an object; byte fields, which the source leaves in the input, are held as their bytes. The members outside `StoredDecodes` and `StoredFrames` decode on values and do not fail when a storage is too small.
- Delta frames and the size budget: a frame with a base may exceed the payload limit through many spans; it is then refused, and the budget theorem speaks of snapshots.
- Enum names: enum fields are held as bytes with their bounds.
- Signed integers, which are held as the bits they are sent as, progress percentages, history scopes, tagged ids, launch and terminal-size bodies, handshakes and other field tables: instances of the schema theorem or simple bounds.
- Layouts.LayoutRoundTrip: models the body of a tab layout, not the messages that carry it.
- ClipboardObjects.Clipboard.SendSelection: the worker runs between any two accesses of the window thread, not within one; the wake pipe, deadlines and poll are outcomes of the worker's steps.
- ImageRuns.ImagesAccountedFor: models images, memory and views; the staging buffer, sampler, pool, fence and descriptor sets live as long as the pool and are not counted.
- ImagePools.ImagePool.PrepareSlot: models the shared object single-threaded, one critical section a method; the interleaving is in the transition system.
- Descriptor rebinding of textures and the quad buffer's contents: only what textures hold is modelled.
- Reports.RunReports: models payload contents by event, session, state and title; a started hook that fails later counts as delivered, and the 2-second kill timer and the 30-second interval are events that may come.
- Reports.Plugin.Handle: does not model shortening an oversized tool input; whether a payload fits, and how many starts of the hook throw, are outcomes. The list of those waiting for the queue to drain is left out.
- Sweep.Analyze: models the two window totals; per-frame demands, phases and percentiles are left out, and times are whole ticks instead of floating point.
- Socket set-up, timeouts and error texts; a call that fails is one outcome.
- Vulkan, Wayland, ATK, Qt, AppKit and Lua calls, floating-point code, benchmarks, icons and the site.
