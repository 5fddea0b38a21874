# Verification of the FDS file store, the flow filter and the converters of libfds

libfds stores flow records (IPFIX Data Records, RFC 7011) in files of its own format, selects them with a
filter language and converts their fields to text. This project models three parts of it in Dafny and proves
what they promise their callers.

**The file store.** A writer keeps, for each combination of Transport Session and Observation Domain ID (ODID),
the templates in force and a buffer into which records are packed as IPFIX Messages and Sets. It decides when
buffers and Template Blocks go to the file, reuses a Template Block until the templates change, keeps a Content
Table and can append to a file it has closed. A reader walks that table with two Data Block readers, one in use
and one loading ahead, under a filter of sessions and ODIDs; for a file that was not closed it rebuilds the
table by scanning. The classes `FileWriter`, `BlockDataWriter`, `BlockTemplates`, `BlockContent`, `FileReader`
and `BlockDataReader` have the fields and the in-place updates of the C++ objects. Each of their methods is
proved against a specification on values (`Writer`, `DataBuffer`, `Blocks`, `ContentTable`, `DataBlock`,
`Messages`, `FileImage`), and the properties of whole runs are proved about that specification (`WriterProofs`,
`WriterRuns`, `WriterHistory`, `WriterSequence`, `BlockPolicy`, `Layout`, `Packing`, `Reopening`, `EndToEnd`,
`Reading`, `Rebuild`, `RebuildPath`, `Recovery`); `LostFiles` holds small files at which a property fails. What
the specification itself rests on is said a second time in other words: `Format` gives all that is written field
by field, `Loading` and `Malformed` what is made of any octets, `Definitions` which octets define which template
and which are which record (`ByteOrder` has the numbers). `Reference` is what a client expects of a writer, a
machine without buffers, blocks and caches, which the writer refines. `WholeRun` puts all together: its method
`WriteAndRead` lets a writer object perform any calls, closes the file, hands its octets to a reader object and
gets the log of the reference machine; `LoseAndRead` does so with a file that is lost before it is closed.

**The filter.** `Parser` is the precedence-climbing grammar over tokens with a printer as its inverse,
`FilterParser` the imperative parser, `ShortestForm` the proof that the printer writes no needless parenthesis.
`FilterGrammar` is the language of the parser as a grammar without a parser, `OperatorTable` what its operators
do in filters as they are written. `Evaluator` models the evaluation tree as numbered nodes with parent links
and the re-evaluation of only the path above a field with several values; `EvalTree` shows that the generator
builds such trees, `Folding` that constant folding keeps meanings, `FilterMeaning` reads off the typed syntax
tree itself what a filter says, and `Filters` puts them together: a typed filter is folded, laid out in memory
and evaluated, record by record, with the answer that it says.

**The converters.** `Strings` and `JsonString` (UTF-8 checking, sanitising, JSON escaping against a reader of
JSON strings), `EscapeNotation` (a reader of what is sanitised), `Timestamps` (NTP fractions), `Decimal`
(table-driven printing), `RecordFields` (search and iteration over the fields of a record), `Statistics` and
`RecordFacts` (what they make of the values of a record).

## Where the code falls short of what is said about it

The model follows the code. Each of these is a lemma:

- A raw template longer than 65531 octets is accepted (`Blocks.TooLongIsAccepted`), but the length of its record in
  the Template Block wraps. A Template Block is read back if and only if it holds none
  (`Blocks.TmpltsRoundTripExactly`), and a Data Block opens if and only if none was in force when it was written
  (`FileImage.OpensExactly`).
- `Block_content::add_session` accepts 65536 sessions, but their number is stored in 16 bits. A Content Table is read
  back if and only if it has at most 65535; of 65536 sessions none comes back (`ContentTable.TableRoundTripExactly`).
  The writer stops one session earlier.
- `ctable_rebuild` rejects zero lengths, but it casts lengths to a signed type, goes back with one of 2^63 or more,
  and may do so for ever (`Rebuild.ScanNeverEnds`, for a file whose header is accepted). It does not end if and only
  if it comes back to an offset without meeting a Session Block or Data Block in between (`Rebuild.EndlessExactly`);
  it ends on all files whose lengths are below 2^63 (`Rebuild.EndsOnShortLengths`).
- `ctable_rebuild` finds everything in a complete file if and only if the 56 octets that it reads ahead are there
  for every Session Block and Data Block (`Rebuild.RebuildsWhole`). A shorter Data Block at the end is missed
  (`Rebuild.ShortLastIsMissed`, at a file: `LostFiles.ShortBlockIsMissed`).
- `ctable_rebuild` takes what is left of an older Content Table for blocks. A file that was lost while it was appended
  to may therefore be refused although all its blocks are whole (`LostFiles.LostFileIsRefused`, and the family
  `LostFiles.LostIsRefused`). Its table comes out as the writer had it if and only if the remnant reads as blocks that
  are not listed, the last of which is cut off or leads behind the end (`Rebuild.RemnantExactly`).
- A Data Block that is whole and listed cannot be read when the file ends within the header that would follow, since
  only a whole header or none is expected there (`LostFiles.TornFileFails`). All listed blocks of a file that was not
  closed can be read if and only if this is not so (`Recovery.RecoversExactly`).
- The comment on src/filter/eval_evaluator.c:65 says that no default value is used once the values of a field have
  run out. The data callback has overwritten the node of the field by then; a field that stands for itself as a
  truth value is therefore taken as true if its default is (`Evaluator.DefaultSlipsIn`). For a single comparison the
  comment holds, whatever values are delivered, if and only if it is not such a field (`Evaluator.FoundIsDocumented`);
  for whole filters `Evaluator.ResultIsMeaning` says that this is enough, not that it is needed.
- `fds_string2str` promises to replace control characters (include/libfds/converters.h:1327-1330), but tests the first
  octet only: U+0085 and overlong forms of C0 controls stay (`Strings.ControlsSlipThrough`). A control character is
  left in the output if and only if the input has one in two or more octets (`Strings.ControlsLeft`).
- Sequence numbers start again at zero when a file is opened to append (`WriterSequence.StepSeq`).
- A number of milliseconds that goes through an NTP fraction comes back one too small unless 125 divides it
  (`Timestamps.LpRoundTrip`).

## Model

| member | source | states |
|---|---|---|
| WholeRun.WriteAndRead | include/libfds/file.h:628-630 | the ordering guarantee through the classes: whatever calls a client makes on a new file (redefinitions, removals, context switches, flushes, re-opens), every call ends as the reference machine says, and the reader returns from the octets of the closed file, for each Session and ODID it is asked for, exactly the log of that machine: the accepted records in the order of the calls, each with its octets, Export Time and the template in force; a filter on an unknown session is refused |
| WholeRun.PerformAll | src/file/File_writer.cpp:23-78 | after any sequence of calls the writer object is in the state that the run of the specification has, and each outcome is that of the reference machine; a re-open writes the file and loads it again; the statistics have counted the records accepted since the file was opened |
| WholeRun.Round | src/file/File_writer.cpp:92-137 | closing and opening to append yields a writer, made of new objects only, in the state of the closed one without its contexts |
| WholeRun.Perform | src/file/File_writer.cpp:267-438 | each public operation of the writer object, failing or not, does what the specification step does, and touches nothing but the writer and what it owns |
| WholeRun.RoundFits | src/file/File_writer.cpp:64-78 | wherever a run that ends within the format limits closes its file in between, that file is within the limits too and closes without error |
| WholeRun.ClosedOpens | src/file/File_reader.cpp:24-51 | a closed file is opened with the compression and the table of its writer, and exactly the sessions of the writer are found in it |
| Reference.HistoryIsLog | src/file/File_writer.cpp:310-438 | refinement: in every run the writer with its buffers, blocks and caches holds, and shows to its client, what a machine without any of them says: which calls succeed, which records are accepted, and under which template and Export Time |
| Reference.StepLooks | src/file/File_writer.cpp:267-438 | one call of the writer simulates one step of that machine, outcome and record included |
| Reference.OutcomeAt | src/file/File_writer.cpp:267-438 | the outcome of each call of a run is the one that the calls before it determine |
| EndToEnd.ReadsWhatWasWritten | src/file/File_writer.cpp:64-78 | an unfiltered read of the octets of any closed file raises no error and gives, for each context, exactly the log of the calls |
| Reading.WrittenReadBack | src/file/File_reader.cpp:155-181 | with any filter: every accepted block opens, the read ends regularly, accepted contexts deliver their whole log, the others nothing |
| Reading.ReadAll | src/file/File_reader.cpp:155-181 | reading record by record until the end delivers all records that are left, and the reader then stays at the end |
| Reading.FilterSelects | src/file/File_reader.cpp:569-597 | a filter selects whole contexts: what an accepted context delivers does not depend on the filter |
| Reading.BadBlockStops | src/file/File_reader.cpp:155-181 | the first accepted block that cannot be read to its end stops the reading with an error, behind all records of the accepted blocks before it and of its own sound part |
| Reading.Open | src/file/File_reader.cpp:24-51 | a reader exists if and only if the header loads and its Content Table does, or, where it names none, one can be rebuilt; it has that table and stands before the first accepted block |
| WriterHistory.RunInv | src/file/File_writer.cpp:167-190 | template binding in every reachable state, whatever the calls and whether they fail: each buffered record was accepted under the template now stored for its ID, a non-zero offset names a Template Block with exactly the current templates, the template used last is the current one of its ID, every Data Block on disk names an earlier block with the templates of its records |
| WriterHistory.RunContents | src/file/File_writer.cpp:346-438 | what a context holds (blocks on disk, then the buffer) is exactly the history of the records accepted for it: nothing is lost, changed or reordered |
| WriterHistory.StepContents | src/file/File_writer.cpp:346-438 | one call adds its record at the end of its own context and leaves every other context alone |
| WriterHistory.FlushAllKeeps | src/file/File_writer.cpp:146-161 | when all contexts could be flushed, everything that was written is on disk |
| WriterRuns.WriteRecContents | src/file/File_writer.cpp:346-374 | an accepted record is appended with the Export Time of its context and the template now stored under its ID, also through the cached template and across a flush |
| WriterRuns.NeverFull | src/file/File_writer.cpp:366-372 | `write_rec` never meets a full buffer: its internal error means that the Content Table is full |
| WriterRuns.TmpltAddKeeps | src/file/File_writer.cpp:376-417 | a definition, new, repeated, replaced or malformed, changes no record that was written before |
| WriterRuns.TmpltRemoveKeeps | src/file/File_writer.cpp:419-438 | nor does a removal |
| WriterRuns.SessionAddKeeps | src/file/File_writer.cpp:267-308 | adding a session never ends with the internal error and leaves all records alone |
| WriterRuns.SelectKeeps | src/file/File_writer.cpp:310-344 | selecting a context, known or new, changes no record |
| WriterProofs.FlushFrame | src/file/File_writer.cpp:167-190 | a flush empties one buffer, may set the Template Block offset, and changes no other context |
| WriterProofs.FlushContents | src/file/File_writer.cpp:167-190 | a flush moves records from the buffer to the disk and changes no content |
| WriterSequence.MessagesNumbered | src/file/Block_data_writer.cpp:84-143 | in the file of any run, re-opens included, every Message is at most 65535 octets long, at most 1400 unless it holds one record, has no two adjacent Sets of one template, is left for the next one only when that has another Export Time or its first record does not fit, and is numbered by the records written before it for its context since the file was opened for the last time, modulo 2^32 (section 3.1 of RFC 7011) |
| WriterSequence.OpeningIsLast | src/file/File_writer.cpp:92-137 | the opening from which a block is counted is the last one before it: no re-open that found at most that many blocks found more |
| WriterSequence.StepSeq | src/file/File_writer.cpp:346-374 | each call keeps that numbering; opening a file to append, which first writes out all buffers, starts it again at zero behind the blocks so far |
| BlockPolicy.TemplatesWrittenOnce | src/file/File_writer.cpp:178-183 | over any calls that leave the templates of a context as they are, re-opens excluded, at most one Template Block is written for it, with these templates, and none if they are in the file already |
| BlockPolicy.WrittenWhenFull | src/file/File_writer.cpp:366-369 | a record makes a buffer with records be written out, templates first if they are not in the file, if and only if it would not fit into 1 MiB behind a new Message header and a new Set header; nothing else is written then |
| BlockPolicy.ClosedInOrder | src/file/File_writer.cpp:146-161 | closing appends Template and Data Blocks only, ordered by session ID and then by Observation Domain ID |
| DataBuffer.AddKeepsInv | src/file/Block_data_writer.cpp:65-144 | capacity, Message lengths, record count and sequence numbers survive every `add`, accepted or refused |
| DataBuffer.ExtendList | src/file/Block_data_writer.cpp:84-143 | wherever a record goes (new Message, new Set, same Set), it is the last one that is read back, with the Export Time set before, and no other record changes |
| DataBuffer.ExtendLengths | src/file/Block_data_writer.hpp:139-144 | a record costs at most its size and two headers, and a Message that is continued never exceeds the configured size |
| DataBuffer.EmptyHasRoom | src/file/Block_data_writer.hpp:139-144 | any record fits into an empty buffer |
| Packing.PackingRoundTrip | src/file/Block_data_writer.cpp:65-190 | after any calls of `add` and `set_etime` the finished buffer reads back as exactly the accepted records with their templates and Export Times, without error |
| Packing.PackedTightly | src/file/Block_data_writer.cpp:84-143 | maximal packing, after any calls of `add` and `set_etime`: of two adjacent Messages the Export Times differ, or the first one and the first record of the second, with a Set header where the template differs, exceed the configured size; adjacent Sets have different templates |
| Layout.NothingOverwritten | src/file/File_writer.cpp:111-136 | however often a file is re-opened, no octet of a block once written changes |
| Layout.SessionIdsExact | src/file/File_writer.cpp:286-307 | Session IDs are exactly 1 to n, and the two session maps are inverse to each other |
| Layout.LaidOut | src/file/File_writer.cpp:167-190 | blocks are disjoint and in write order between file header and write offset; the session list and the Data Block list both ascend, without overlap |
| Reopening.EntriesInOrder | src/file/File_writer.cpp:178-189 | every listed Data Block lies inside the file, behind its Template Block and before the next listed one |
| Reopening.AppendResumes | src/file/File_writer.cpp:92-137 | `append_prepare` on a closed file gives back its write offset, table and both session maps |
| Reopening.OpensClosed | src/file/File_base.cpp:330-357 | header and Content Table of a closed file load as they were written |
| FileImage.OpensBlock | src/file/File_reader.cpp:437-507 | all cross-checks between table, session, Template Block and Data Block succeed for every Data Block of a closed file, which is opened with the templates its records were accepted under |
| FileWriter.FileWriter.constructor | src/file/File_writer.cpp:56-63 | a writer of a new file: header on disk, nothing else |
| FileWriter.FileWriter.SessionAdd | src/file/File_writer.cpp:267-308 | state, outcome and ID are those of the specification, with known descriptions found by the order alone; the Session Block is in the file |
| FileWriter.FileWriter.SelectCtx | src/file/File_writer.cpp:310-344 | as specified; at most one context, with objects of its own, is new |
| FileWriter.FileWriter.WriteRec | src/file/File_writer.cpp:346-374 | as specified, through the cached template; only the selected context, the file and the statistics change, and these count the record if and only if it is accepted |
| FileWriter.FileWriter.TmpltAdd | src/file/File_writer.cpp:376-417 | as specified: the buffer is flushed before a template is replaced |
| FileWriter.FileWriter.TmpltRemove | src/file/File_writer.cpp:419-438 | as specified: the buffer is flushed before a template goes |
| FileWriter.FileWriter.FlushTmplts | src/file/File_writer.cpp:178-183 | the Template Block is written unless its offset is known, and its offset recorded |
| FileWriter.FileWriter.FlushData | src/file/File_writer.cpp:185-189 | the Data Block is appended and listed with offset, length, Template Block, ODID and session; the buffer is empty |
| FileWriter.FileWriter.Flush | src/file/File_writer.cpp:167-190 | nothing is written for an empty buffer |
| FileWriter.FileWriter.FlushAll | src/file/File_writer.cpp:146-161 | contexts are flushed in the order of sessions and ODIDs until one fails |
| FileWriter.FileWriter.Close | src/file/File_writer.cpp:65-78 | when all is flushed, the file consists of header, blocks and Content Table; otherwise no table is written |
| FileWriter.OpenToAppend | src/file/File_writer.cpp:92-137 | refused for other versions, for a file that was not closed and for tables or sessions that do not load; else the state found in the file |
| FileWriter.LoadSessionMaps | src/file/File_writer.cpp:116-132 | the loop over the listed sessions builds the map and the ordered index, or fails at the first mismatch |
| FileWriter.BlockAppended | src/file/File_writer.cpp:174-189 | writing at the write offset appends a block and leaves the earlier ones as they are |
| FileWriter.ClosedImage | src/file/File_writer.cpp:65-78 | the two writes of the destructor leave header, blocks, table and what a longer old file had behind them |
| BlockDataWriter.BlockDataWriter.constructor | src/file/Block_data_writer.cpp:23-52 | an empty buffer |
| BlockDataWriter.BlockDataWriter.ResetBuffer | src/file/Block_data_writer.cpp:305-323 | the buffer is empty, its header prepared, the settings kept |
| BlockDataWriter.BlockDataWriter.SetEtime | src/file/Block_data_writer.hpp:92-93 | only the Export Time of the next Message changes |
| BlockDataWriter.BlockDataWriter.Remaining | src/file/Block_data_writer.hpp:139-144 | the largest size that fits whatever headers are needed |
| BlockDataWriter.BlockDataWriter.Add | src/file/Block_data_writer.cpp:65-144 | in place, with lengths filled in later: the octets stand for the buffer with the record as its last one, or nothing changes and the error is the first check that fails |
| BlockDataWriter.BlockDataWriter.CloseMsg | src/file/Block_data_writer.cpp:94-104 | with both lengths filled in, the octets are the encoding of all Messages |
| BlockDataWriter.BlockDataWriter.Start | src/file/Block_data_writer.cpp:90-135 | the Message and Set for the record are open, in a new Message exactly when size, Export Time or an empty buffer demand it; what that means for all Messages of a buffer and of a file is `Packing.PackedTightly` and `WriterSequence.MessagesNumbered` |
| BlockDataWriter.BlockDataWriter.WriteToFile | src/file/Block_data_writer.cpp:146-190 | the octets handed to the file are the Data Block of all Messages, packed if so configured; the buffer is empty, the counters go on |
| BlockTemplates.BlockTemplates.Add | src/file/Block_templates.cpp:205-253 | stores what the definition parses to under its ID, or refuses it and changes nothing; what parses to what is `Definitions.AcceptedExactly` and `Definitions.AcceptedIsDefinition` |
| BlockTemplates.BlockTemplates.Get | src/file/Block_templates.cpp:255-278 | the template stored under the ID, if any |
| BlockTemplates.BlockTemplates.Remove | src/file/Block_templates.cpp:280-298 | removes exactly that ID, or reports that it is not there |
| BlockTemplates.BlockTemplates.WriteToFile | src/file/Block_templates.cpp:109-172 | the octets that the two loops and the padding make are the Template Block with the templates by ascending ID |
| BlockTemplates.BlockTemplates.LoadFromFile | src/file/Block_templates.cpp:39-107 | what the loop over the records arrives at is what the octets of the block define |
| BlockContent.BlockContent.AddSession | src/file/Block_content.cpp:23-35 | the entry is last, or the table is full and unchanged |
| BlockContent.BlockContent.AddDataBlock | src/file/Block_content.cpp:37-52 | the entry is last, or the table is full and unchanged |
| BlockContent.BlockContent.WriteToFile | src/file/Block_content.cpp:61-188 | the octets that the section writers make are the encoding of both lists, absent sections left out |
| BlockContent.BlockContent.LoadFromFile | src/file/Block_content.cpp:196-250 | both lists as the sections in the file define them, or an error |
| Blocks.SessionRoundTrip | src/file/Block_session.cpp:34-107 | a written Session Block loads as the same ID and description |
| Blocks.TmpltsRoundTrip | src/file/Block_templates.cpp:39-172 | a written Template Block of any templates (each raw definition at most 65531 octets) loads as the same templates, whatever padding follows |
| Blocks.TmpltsRoundTripExactly | src/file/Block_templates.cpp:39-172 | for any templates whose raw definitions have at most 65535 octets: the written block loads as the same templates if and only if none is longer than 65531 octets; otherwise a 16-bit record length wraps to less than a record header, and the block never loads |
| Blocks.TooLongIsAccepted | src/template_mgr/template.c:649-705 | there are definitions of that length that `add` accepts |
| FileImage.OpensExactly | src/file/File_reader.cpp:437-507 | a Data Block of a closed file opens, with its own Messages and templates, if and only if none of the raw definitions in force when it was written is too long |
| FileImage.OpensIn | src/file/File_reader.cpp:437-507 | the same in any file that starts with the blocks of a writer, closed or not: the block opens if and only if no raw definition in force was too long and it is the last one or a whole header follows |
| ContentTable.TableRoundTrip | src/file/Block_content.cpp:61-328 | a written Content Table (at most 65535 sessions) loads as the same two lists |
| ContentTable.TableRoundTripExactly | src/file/Block_content.cpp:28-30 | of the tables that `add_session` and `add_data_block` accept, exactly those with at most 65535 sessions load as written; one with 65536 loads with none of them |
| DataBlock.DataRoundTrip | src/file/Block_data_reader.cpp:226-296 | a written Data Block, packed or not, loads with its length as hint as the same session, ODID, Template Block and Messages, at the end of the file or before another block |
| Format.MessageFormat | src/file/Block_data_writer.cpp:84-143 | a Message field by field: version 10, length, Export Time, Sequence Number, ODID in network byte order, then the Sets (section 3.1 of RFC 7011) |
| Format.SetFormat | src/file/Block_data_writer.cpp:106-135 | a Set: ID, length, and the records without padding (section 3.3.2 of RFC 7011) |
| Format.FileHeaderFormat | src/file/structure.h:72-86 | a file begins with "FDS1", version 1, the compression algorithm and the offset of the Content Table, and statistics |
| Format.SessionFormat | src/file/structure.h:164-183 | the 56 octets of a Session Block, field by field |
| Format.TemplatesFormat | src/file/structure.h:190-224 | a Template Block: header, the raw definitions with type and length by ascending ID, zeros to a multiple of four octets |
| Format.DataFormat | src/file/structure.h:242-261 | a Data Block: header, never packed, flag of packing, session, ODID, offset of the Template Block, and the Messages |
| Format.TableFormat | src/file/structure.h:288-354 | a Content Table: a flag and an offset for each list that is not empty, and the lists with their numbers of entries, field by field |
| FileImage.HeaderRoundTrip | src/file/File_base.cpp:315-357 | a written file header loads as version, compression and table offset |
| Loading.HeaderExactly | src/file/File_base.cpp:330-357 | on any octets: which file headers are accepted, and what is found in them |
| Loading.SessionExactly | src/file/Block_session.cpp:34-76 | on any octets: a Session Block is loaded if and only if 56 octets are there, its type is 1 and its length at least 56; an unknown protocol is none |
| Loading.TemplatesExactly | src/file/Block_templates.cpp:39-107 | on any octets: when there is a Template Block, whose it is, and which octets are its definitions |
| Loading.DefinitionFirst | src/file/Block_templates.cpp:39-107 | a definition in front of any octets is stored under its ID, or refused when it does not parse |
| Loading.DefinitionsEnd | src/file/Block_templates.cpp:39-107 | less than a record header is padding, a length beyond the block an error |
| Loading.DataExactly | src/file/Block_data_reader.cpp:61-103 | on any octets: when a Data Block is loaded, with or without its length from the table, packed or not, and as what |
| Loading.TableHeaderExactly | src/file/Block_content.cpp:196-250 | on any octets: when there is a Content Table |
| Loading.SectionsExactly | src/file/Block_content.cpp:196-250 | which list is read from which offset |
| Loading.SessionsExactly | src/file/Block_content.cpp:261-296 | the session list is found if and only if its number and all entries lie inside the table |
| Loading.BlocksExactly | src/file/Block_content.cpp:299-328 | so is the list of Data Blocks |
| Loading.SessionFound | src/file/File_reader.cpp:222-252 | the first listed Session Block with the ID decides, and must carry it |
| Loading.OpensExactly | src/file/File_reader.cpp:437-507 | a listed Data Block can be read if and only if its session is found and the Template Block and the Data Block that are listed load and agree with the entry on session, ODID and offset |
| Loading.AppendsExactly | src/file/File_writer.cpp:92-137 | which files can be appended to; a denial means that a file of version 1 names no Content Table, everything else that does not load is the internal error |
| Templates.Parse | src/template_mgr/template.c:649-705 | an accepted definition is kept whole, carries the ID of its first two octets (at least 256), has a field, and its shortest record fits into a Message |
| Definitions.AcceptedExactly | src/template_mgr/template.c:649-705 | the definition made of an ID, counts and any Field Specifiers (enterprise numbers included) is accepted, with exactly these fields in their order, if and only if the ID is at least 256, there is a field, an Options Template has at least one scope field and no more than fields, and the shortest record has at most 65515 octets |
| Definitions.AcceptedIsDefinition | src/template_mgr/template.c:649-705 | nothing else is accepted: every accepted definition is made of an ID, counts and Field Specifiers, and its template has their fields |
| Definitions.FieldsAreRead | src/template_mgr/template.c:471-503 | Field Specifiers in front of any octets are read as exactly their fields, in order, and what follows is left |
| Definitions.RecordLengthFound | src/file/Block_data_writer.cpp:335-388 | the octets of any values of the fields, short and long length prefixes included, are found to be one record |
| Definitions.ValuesFound | src/drec/iterator.c:139-210 | iteration finds the value of each field where it was put, in any octets around the record |
| Templates.RecLength | src/file/Block_data_writer.cpp:335-388 | the length that one pass over the fields finds is the length of the record, `None` when it runs over the end |
| Templates.RecLenPrefix | src/file/Block_data_writer.cpp:335-388 | a record accepted with its exact size is found with the same size in front of any octets |
| Messages.MsgsRoundTrip | src/file/Block_data_reader.cpp:153-194 | Messages of well-formed Sets, laid out one behind the other, are iterated as exactly their records in order, and then the end |
| SessionOrder.Trichotomy | src/file/Block_session.cpp:121-158 | exactly one of less, equal, greater holds, so only equal descriptions are equivalent |
| SessionOrder.Transitive | src/file/Block_session.cpp:121-158 | the order of descriptions is transitive |
| SessionOrder.LessIsNumeric | src/file/Block_session.cpp:121-158 | one description is less than another if and only if its ports, protocol and addresses, in this order and as one number of 38 octets, are |
| SessionOrder.Find | src/file/File_writer.cpp:270-284 | searching with the order alone finds a description exactly when it was stored |
| SessionOrder.Assign | src/file/File_writer.cpp:303-307 | assigning an ID to a description, new or known, keeps the list ordered and changes that entry only |
| BlockDataReader.BlockDataReader.LoadFromFile | src/file/Block_data_reader.cpp:61-103 | a request for the block and the next header, or an error for a size that no buffer holds; nothing is loaded yet |
| BlockDataReader.BlockDataReader.DataReady | src/file/Block_data_reader.cpp:203-296 | the request, once, becomes the loaded block or an error |
| BlockDataReader.BlockDataReader.SetTemplates | src/file/Block_data_reader.cpp:105-111 | reading starts again at the first Message, with these templates |
| BlockDataReader.BlockDataReader.PrepareRecord | src/file/Block_data_reader.cpp:368-398 | the next record of the Set, its end (padding included), or an error exactly when a record runs over the end |
| BlockDataReader.BlockDataReader.PrepareSet | src/file/Block_data_reader.cpp:413-463 | the next Data Set of the Message, other Sets skipped; an error exactly when a Set is malformed or its template missing |
| BlockDataReader.BlockDataReader.PrepareMessage | src/file/Block_data_reader.cpp:475-519 | the next Message and its Export Time, or the end, or an error exactly when it is malformed |
| BlockDataReader.BlockDataReader.NextRec | src/file/Block_data_reader.cpp:153-194 | the three nested loops end, deliver the first record that is left, and the reader stays at the end of the block |
| BlockDataReader.SetStep | src/parsers/ipfix_parser.c:116-152 | what the Sets iterator makes of the octets at a position |
| Malformed.OneMessageRead | src/file/Block_data_reader.cpp:475-519 | on any octets: a Message is refused if and only if its header is cut, its version is not 10, or its length is shorter than the header or passes the end; otherwise its Sets are read, and then the next one |
| Malformed.OneSetRead | src/file/Block_data_reader.cpp:413-463 | a Set below ID 256 is passed over, a Data Set needs its template, and its records come before those of the next Set |
| Malformed.BrokenSet | src/parsers/ipfix_parser.c:116-152 | a cut Set header, and a length below 4 or beyond the Message, are errors |
| Malformed.SetEnds | src/parsers/ipfix_parser.c:192-245 | a Data Set may be padded with fewer octets than the shortest record has; a longer rest that is no record is an error behind the records before it |
| Malformed.NoRecord | src/parsers/ipfix_parser.c:168-190 | a Data Set without room for a record is an error; records without octets would be delivered for ever |
| FileReader.FileReader.constructor | src/file/File_reader.cpp:24-51 | two idle readers, no filter, everything still to come |
| FileReader.FileReader.ReadRewind | src/file/File_reader.cpp:137-153 | everything the filter accepts is to come again; all readers are idle |
| FileReader.FileReader.GetSession | src/file/File_reader.cpp:222-252 | the cache gives what a search in the file gives |
| FileReader.FileReader.GetTmplts | src/file/File_reader.cpp:193-207 | the cache gives what loading the block gives |
| FileReader.FileReader.Next2Current | src/file/File_reader.cpp:437-507 | the prepared block becomes the current one with its own templates, or an error when it cannot be opened |
| FileReader.FileReader.PrepareNext | src/file/File_reader.cpp:521-557 | refused blocks are skipped, the next accepted one is requested by an idle reader, nothing that is to come is lost |
| FileReader.FileReader.Scheduler | src/file/File_reader.cpp:393-422 | afterwards the current block is the next accepted one, its successor is being loaded, two readers in all; without a current block nothing is left |
| FileReader.FileReader.ReadRec | src/file/File_reader.cpp:155-181 | delivers the first record that is left; reports the end exactly when nothing is left, again and again; an error only when a block does not open or is damaged |
| FileReader.FileReader.SfilterConf | src/file/File_reader.cpp:98-135 | rewinds, and widens the filter by exactly the given session, ODID or pair, or switches it off; an unknown session changes nothing |
| FileReader.OutsOfReadable | src/file/File_reader.cpp:155-181 | where all blocks can be read, what is delivered is the concatenation of the accepted blocks in table order |
| Rebuild.CtableRebuild | src/file/File_reader.cpp:268-324 | the loop over the blocks arrives at what the octets define: a table, an error, a sum of offset and length outside of the signed type, or no end |
| RebuildPath.RebuiltExactly | src/file/File_reader.cpp:268-324 | without the loop, for every file: a table is rebuilt if and only if a path of blocks, each led to by offset and length of the one before, reaches a place where 56 octets are not left or the block passes the end, and before that all Session Blocks load and agree and no list overflows; the table lists the Session and Data Blocks on the path with the offset, length and fields found there |
| RebuildPath.OverflowExactly | src/file/File_reader.cpp:299-322 | the sum of offset and length overflows if and only if such a path leads to a block where it does |
| Rebuild.RebuildsPrefix | src/file/File_reader.cpp:268-324 | of a file of the writer cut at any length, the rebuilt table is a prefix of the writer's table, with exactly the blocks that are complete and reach the probe |
| Rebuild.RebuildsWhole | src/file/File_reader.cpp:283-289 | in an uncut file nothing is missing if and only if 56 octets can be read from the start of every Session Block and Data Block on |
| Rebuild.RebuildsWholeByLast | src/file/File_reader.cpp:283-289 | when the last block is one that is listed, that is if and only if it is at least 56 octets long |
| Rebuild.ShortLastIsMissed | src/file/File_reader.cpp:283-289 | a last Data Block that is shorter than 56 octets is not in the rebuilt table |
| LostFiles.ShortBlockIsMissed | src/file/File_reader.cpp:283-289 | a complete file with one record of one octet, whose only Data Block of 49 octets is missed |
| Rebuild.RebuildsInFront | src/file/File_reader.cpp:268-324 | whatever lies behind the blocks of a writer (a remnant of an older Content Table, a cut block): the scan finds what the writer listed, stops at the first block that the probe does not reach, or goes on over the remnant with the table of the writer, whose entries stay in front of all that it adds |
| Rebuild.RemnantDecides | src/file/File_reader.cpp:290-306 | what the first octets behind the blocks do: too few of them, or a length that leads behind the end, give the table of the writer; a length of zero has the file refused |
| Rebuild.RemnantExactly | src/file/File_reader.cpp:268-324 | whatever lies behind the blocks of a writer: its table comes out as it is if and only if the walk over these octets meets no Session Block or Data Block and comes to a place where the probe does not fit or the length leads behind the end of the file |
| LostFiles.LostIsRefused | src/file/File_reader.cpp:268-324 | for all files with one session and at least four Data Blocks, the second of ODID zero with a Template Block below 2^32: when 106 octets of new blocks cover the old Content Table, the scan meets a length of zero in what is left of it and the file is refused, although all its blocks are whole |
| LostFiles.LostFileIsRefused | src/file/File_reader.cpp:268-324 | such a file, reached by five openings with one record each of which the last one did not write the table |
| Rebuild.RebuildsReopened | src/file/File_reader.cpp:268-324 | a closed file that was opened to append and lost before its first write is rebuilt with exactly the table it had |
| Recovery.RecoversExactly | src/file/File_reader.cpp:24-51 | crash recovery, for all calls, re-opens included, and every length at which the file ends: the reader opens it with the table of the blocks that the scan passes over; each context delivers exactly their records, the beginning of its log; all can be read if and only if the file does not end within the header behind the last Data Block |
| Recovery.RecoversAll | src/file/File_reader.cpp:24-51 | with the rest of an older table behind the blocks, and the table of the writer rebuilt, each context delivers all that is on disk, the beginning of its log |
| WholeRun.LoseAndRead | src/file/File_reader.cpp:24-51 | the same through the classes: a reader object on the octets of a writer object that was lost before it closed its file returns for each context the records of the blocks that the scan passes over |
| LostFiles.TornFileFails | src/file/Block_data_reader.cpp:221-263 | a file that ends five octets behind a Data Block: it is listed and cannot be read |
| Recovery.WriterOf | src/file/File_writer.cpp:167-190 | whatever the calls, each prefix of the blocks of the file is all that some writer in a proper state has written |
| Rebuild.EndlessExactly | src/file/File_reader.cpp:286-323 | for every file: the scan does not end if and only if it comes back to an offset without meeting a Session Block or Data Block in between |
| Rebuild.WalkEndlessExactly | src/file/File_reader.cpp:286-323 | from any offset of any file, with the two lists ignored, the walk over the blocks does not end if and only if it comes to some offset twice |
| Rebuild.EndsOnShortLengths | src/file/File_reader.cpp:299-322 | the scan ends when every length that it meets is below 2^63 |
| Rebuild.TrapOpens | src/file/File_base.cpp:330-357 | the header of this file is accepted and names no Content Table, so that the reader scans it |
| Rebuild.ScanNeverEnds | src/file/File_reader.cpp:301-322 | rejecting zero lengths is not enough for termination: of a file of a header and two blocks the scan goes on for ever |
| RecordFields.AcceptedIsTiled | src/file/Block_data_writer.cpp:335-388 | fields and length prefixes of an accepted record follow each other without gaps up to its end |
| RecordFields.ItemsTile | src/drec/iterator.c:139-210 | each field begins behind the one before, its prefix skipped, and lies inside the record |
| RecordFields.Find | src/drec/iterator.c:54-101 | the first field with the ID, at the position and with the size that iteration gives it; the 16-bit offset never wraps |
| RecordFields.RecordIterator.Next | src/drec/iterator.c:139-210 | the next field that the flags let through; the end when there is none |
| RecordFields.RecordIterator.FindNext | src/drec/iterator.c:212-261 | repeated calls enumerate all fields with the ID, in order |
| RecordFields.AllShown | src/drec/iterator.c:171-192 | with padding shown and nothing skipped every field is shown |
| RecordFacts.ShownExactly | src/drec/iterator.c:171-192 | for all flags: a field is shown if and only if it is no padding (210 under either enterprise number of padding) or that is asked for, known or unknown fields are not skipped, and forward or reverse fields are not skipped |
| RecordFacts.ThoseInOrder | src/drec/iterator.c:139-210 | what is shown keeps its order |
| RecordFacts.FactOfValues | src/file/File_base.cpp:133-252 | what a record of any values counts for: the protocol by the number in field 4 (6, 17, 1 and 58), octets and packets (fields 1 and 2) of both directions added up, biflow when a reverse field is there; each is the first field of its ID, of one to eight octets, read with the first octet weighing most |
| Statistics.FileStats.Update | src/file/File_base.cpp:133-252 | after any records every counter is the number of records, octets or packets it is named after, modulo 2^64 |
| Statistics.Conserved | src/file/File_base.cpp:202-251 | records, octets, packets and biflows in total are the sums of their parts by protocol |
| Evaluator.Runtime.ReevaluateUpwards | src/filter/eval_evaluator.c:48-101 | with the next value of the field, recomputing only the path to the comparison leaves the whole subtree as a full evaluation with that value would; without a next value only the field node may change |
| Evaluator.Runtime.ComputeUpwards | src/filter/eval_evaluator.c:55-100 | the loop over the parents brings every node of the comparison up to date |
| Evaluator.OneUp | src/filter/eval_evaluator.c:79-99 | recomputing one parent moves the boundary of what is up to date by one node |
| Evaluator.Runtime.EvaluateWhileNotTrue | src/filter/eval_evaluator.c:105-116 | a comparison is tried with one value after the other until it holds or none is left; the loop ends |
| Evaluator.Runtime.EvaluateTree | src/filter/eval_evaluator.c:118-211 | and, or, not and any give the boolean combination of their subtrees |
| Evaluator.Runtime.EvaluateExpr | src/filter/eval_evaluator.c:127-158 | calls, casts, fields and constants are computed in full from the first value of the field |
| Evaluator.Runtime.Evaluate | src/filter/eval_evaluator.c:213-218 | a filter can be evaluated for one record after the other; the result is the documented meaning when no field that stands for itself has a true default |
| Evaluator.ResultIsMeaning | src/filter/eval_evaluator.c:105-211 | under that condition a comparison holds if and only if some delivered value satisfies it |
| Evaluator.FoundIsDocumented | src/filter/eval_evaluator.c:64-68 | for a single comparison the documented result is met for all delivered values if and only if it is not a bare field that ends without a last value and has a true default |
| Evaluator.DefaultSlipsIn | src/filter/eval_evaluator.c:64-68 | an input for which it is missed |
| EvalTree.GeneratedRep | src/filter/eval_generator.c:371-472 | the nodes that generation makes and links represent the tree, parents included |
| EvalTree.InitialConsts | src/filter/eval_generator.c:317-337 | and its constants hold their values |
| Folding.FoldingKeepsMeaning | src/filter/eval_generator.c:474-521 | whatever the fields are, with one value or the default each, the tree generated with folding and the one without evaluate alike, and one fails to be generated exactly when the other does |
| Folding.FoldedFilterKeepsResult | src/filter/eval_generator.c:474-521 | with any number of values for each field the folded filter stays in the class that the evaluator handles, and has the result and the meaning of the filter as it was written |
| FilterMeaning.GeneratedSays | src/filter/eval_generator.c:189-472 | for every typed syntax tree, whatever the fields are, with one value or the default each: the tree that is generated evaluates to what the syntax tree says, operands in order, and one can be generated if and only if every constructor succeeds |
| FilterMeaning.FoldedSays | src/filter/eval_generator.c:474-521 | the same for the tree with constant subtrees folded |
| FilterMeaning.FilterNode | src/filter/eval_generator.c:189-472 | with any number of values: the generated tree of a filter is of the class that the evaluator handles and has the result that the filter as it is written asks for, without reference to any tree |
| FilterMeaning.AnswersMean | src/filter/eval_evaluator.c:103-118 | where no true default is left behind the answer of a filter is its meaning |
| Filters.Create | src/filter/filter.c:97-108 | there is a filter if and only if every constructor succeeds on its constant, and its tree answers for every record what the filter as it is written answers |
| Filters.Filter.Eval | src/filter/filter.c:110-119 | the result of that tree for the record, whatever earlier records left in memory |
| Filters.FilterAll | src/filter/filter.c:60-119 | from the typed syntax tree through folding, layout in memory and path-wise re-evaluation: every record of a list gets the answer of the filter as it is written, which is its meaning (and, or, not over comparisons that some delivered value satisfies) where no true default is left behind |
| Folding.FoldingIsComplete | src/filter/eval_generator.c:477-502 | after folding a subtree reads a field if and only if it is not constant |
| Folding.ConstRuns | src/filter/eval_generator.c:80-98 | evaluating a constant subtree at compile time, without a record, gives its value in every record |
| Parser.PrintParse | src/filter/parser.c:140-463 | parsing the printed form of any tree gives back that tree |
| ShortestForm.NothingShorter | src/filter/parser.c:140-463 | no list of tokens that parses to a tree is shorter than its printed form: parentheses stand only where the operator table needs them |
| OperatorTable.TighterFirst | src/filter/parser.c:69-105 | of two infix operators in a row, the implicit one included, the one of the tighter group of the table (written out as seven ordered groups) takes the operand between them, within a group the left one |
| OperatorTable.PrefixReaches | src/filter/parser.c:69-105 | a prefix operator applies to the whole of the infix operation behind it if the group of that is within its reach, and to the first operand alone otherwise |
| OperatorTable.PrefixAsOperand | src/filter/parser.c:241-463 | behind an infix operator a prefix operator applies to what follows |
| OperatorTable.SymbolAndName | src/filter/parser.c:107-124 | which symbol in front of a name makes a longer name, an operation, or an error |
| FilterGrammar.ParsesExactly | src/filter/parser.c:140-497 | the language of the parser: a list of tokens is accepted, as a given tree, if and only if it is written so: parentheses wherever they like, without them each operand reaches as far as the operators on both sides let it, lists with commas and perhaps one behind the last item |
| Parser.Reprint | src/filter/parser.c:465-497 | printing what was parsed and parsing it again changes nothing |
| Parser.InfixOutput | src/filter/parser.c:140-239 | everything the parser builds is made of operators of the table and names with legal prefixes |
| Parser.ParseInfix | src/filter/parser.c:140-239 | consumes at least one token, so that the mutually recursive parser ends on every input |
| FilterParser.FilterParser.ParseInfixExpr | src/filter/parser.c:140-239 | the loop that rebuilds the tree token by token yields what the grammar yields, tokens left over included |
| FilterParser.FilterParser.ParsePrefixExpr | src/filter/parser.c:241-463 | likewise for names, values, parentheses, lists and prefix operators |
| FilterParser.FilterParser.ParseListItems | src/filter/parser.c:326-397 | likewise for list items and a comma before the closing bracket |
| FilterParser.FilterParser.ParseFilterExpr | src/filter/parser.c:465-497 | a filter is accepted exactly when the whole input is one expression |
| Strings.String2Str | src/converters/converters.c:625-726 | succeeds if and only if the sanitised text and the null byte fit, and then writes exactly these and returns the length; what the text says is `EscapeNotation.ReadsBackExactly` |
| Strings.SanitisedIsClean | src/converters/converters.c:641-713 | the output is a sequence of characters none of which begins with a control octet or an escapable one, whatever the input |
| Strings.ControlsLeft | src/converters/converters.c:570-584 | a control character (a code point below 0x20 or from 0x7F to 0x9F) is left in the output if and only if the input has one that is encoded in two or more octets |
| Strings.ControlsSlipThrough | src/converters/converters.c:570-584 | two inputs, the next-line character and a line feed in two octets, that are not changed |
| Strings.CleanIsUtf8 | src/converters/converters.c:728-744 | such an output passes the UTF-8 check and holds no control octet below 0x20 nor 0x7F |
| Strings.SanitisedTwice | src/converters/converters.c:625-726 | converting again changes nothing |
| Strings.SanitisedLength | src/converters/converters.c:625-726 | the output is at least as long as the input and at most four times as long |
| Strings.Utf8Check | src/converters/converters.c:728-744 | accepts exactly the sequences of characters |
| EscapeNotation.ReadsBackExactly | src/converters/converters.c:586-713 | a reader of the notation (letters a, b, t, n, v, f, r for 7 to 13, two digits for the other controls) makes of the output the input, with U+FFFD for each octet from 0xA0 on that begins no character, if and only if the input has no backslash; a UTF-8 string comes back as it was |
| EscapeNotation.UntouchedExactly | src/converters/converters.c:641-655 | a string is left as it is if and only if it is UTF-8 without octets below 0x20 and without 0x7F |
| EscapeNotation.CharLenExactly | src/converters/converters.c:531-560 | there is a character of n octets at the front if and only if they are the form of n octets of some number (section 3 of RFC 3629, overlong forms included), which is the code point |
| JsonString.ToString | src/converters/json.c:649-765 | writes the quoted body and stays within the six octets for each octet and four more that were reserved |
| JsonString.JsonRoundTrip | src/converters/json.c:675-760 | without flags, un-escaping the body by section 2.5 of RFC 4627 gives back every string that the UTF-8 check accepts |
| JsonString.BodyReads | src/converters/json.c:675-760 | for any octets, what un-escaping gives: with the flag the characters that are no controls and nothing else; without it every character, the code point of its number for an octet from 0x80 to 0x9F that begins none, and U+FFFD for one from 0xA0 on |
| JsonString.ShortEscapes | src/converters/json.c:610-637 | quote, backslash and the five controls that JSON has letters for are written with two characters |
| JsonString.BodyIsLegal | src/converters/json.c:675-760 | for any octets, with or without the flag, the body has no bare quote, no control character and no broken escape sequence |
| JsonString.BodyIsUtf8 | src/converters/json.c:675-760 | for any octets, with or without the flag, the body passes the UTF-8 check |
| JsonString.BodyLength | src/converters/json.c:652-660 | it has at most six octets for each octet |
| Timestamps.SetDatetimeLp | include/libfds/converters.h:307-357 | only octets of the right size are written, others stay |
| Timestamps.SetDatetimeHp | include/libfds/converters.h:376-424 | only octets of the right size are written, others stay |
| Timestamps.LpFormat | include/libfds/converters.h:307-357 | what is written for a number of milliseconds (sections 6.1.7 to 6.1.10 of RFC 7011): seconds, milliseconds, or seconds since 1900 with the part of a second in units of 2^-32 s rounded down |
| Timestamps.HpFormat | include/libfds/converters.h:376-424 | the same for seconds and nanoseconds |
| Timestamps.LpRead | include/libfds/converters.h:735-785 | any NTP timestamp is read as milliseconds rounded down, modulo 2^64 |
| Timestamps.HpRead | include/libfds/converters.h:803-873 | and as the nearest number of nanoseconds |
| Timestamps.HpNanosRoundTrip | include/libfds/converters.h:803-873 | nanoseconds survive the 32-bit fraction and come back exactly (before the wrap of 2036) |
| Timestamps.HpMicrosRoundTrip | include/libfds/converters.h:803-873 | with the mask of the microsecond type 0 to 477 ns are lost |
| Timestamps.HpMillisRoundTrip | include/libfds/converters.h:803-873 | milliseconds come back, finer parts are cut off |
| Timestamps.HpSecondsRoundTrip | include/libfds/converters.h:803-873 | seconds come back |
| Timestamps.LpRoundTrip | include/libfds/converters.h:735-785 | milliseconds through a fraction come back exactly when 125 divides the value, and one too small otherwise |
| Timestamps.LpMillisRoundTrip | include/libfds/converters.h:735-785 | every 64-bit number of milliseconds comes back |
| Timestamps.WrapsIn2036 | include/libfds/converters.h:803-873 | behind the wrap a timestamp is read exactly 2^32 seconds too early |
| Decimal.U64ToA | src/converters/branchlut2.h:85-93 | for every 64-bit number the numeral, at most 20 digits, and the null octet at the returned position |
| Decimal.U32ToA | src/converters/branchlut2.h:67-74 | the same for 32 bits and ten digits |
| Decimal.NumeralReads | src/converters/branchlut2.h:23-65 | the numeral reads back as its number and has no leading zero |
| Decimal.NumeralUnique | src/converters/branchlut2.h:23-65 | and is the only string of digits that does |

## Left out

- EndToEnd.ReadsWhatWasWritten: speaks of runs within the limits of the format: raw templates of at most 65531 octets (see `FileImage.OpensExactly`), less than 2^32 Data Blocks, file offsets below 2^63, and no step that ends with the internal error; `WholeRun.WriteAndRead` and `Reading.WrittenReadBack` have the same hypotheses, as the predicate `Completes` states.
- Recovery.RecoversExactly: has the same limits on raw templates, file offsets and the internal error, and so has `Recovery.RecoversAll`; `WholeRun.LoseAndRead` also asks that the run could still be closed.
- WriterHistory.RunContents: excludes runs with the internal error, which loses the buffer that did not fit into a full Content Table.
- BlockDataReader.BlockDataReader.NextRec: is not called again after the end of a block without any Data Set, where the code would use a Data Set iterator that was never prepared.
- BlockDataReader.BlockDataReader.PrepareMessage: the assertion that a Message carries the ODID of its block is not modelled; a Message shorter than its own header, which the Sets iterator asserts away, is an error.
- FileReader.FileReader.ReadRec: says nothing about a reader after an error, for example about entries that a failed load leaves in its caches.
- BlockTemplates.BlockTemplates.LoadFromFile: a record shorter than its own header gives the outcome `Runaway`; the octets that the code then reads outside the block are not modelled.
- BlockContent.BlockContent.LoadFromFile: section offsets near 2^64, whose sum with a section size wraps in the code, count as too large.
- FileWriter.FileWriter.TmpltAdd: a definition of a single octet is refused as malformed; the code reads its ID from beyond the octet first.
- FileWriter.FileWriter.WriteRec: the statistics start at zero when a file is opened; their copy in the file header, from which an appending writer goes on, is not modelled.
- Rebuild.CtableRebuild: gives the outcome `Endless` where the code does not end, and `Overflow` where its sum of offset and length leaves the signed type, which C++ does not define; `Reading.Open` gives no reader in both cases. The assertions on listed entries, present in debug builds only, are not modelled.
- Evaluator.ResultIsMeaning: is one-way, since a true default may be without effect on a whole filter; it covers filters of and and or over comparisons that read exactly one field, with at most one not at the top; nested not, exists, constant operands of and and or, and comparisons of two fields are outside, since the code has no case for them on its way up.
- Evaluator.Runtime.DataCb: the data callback is modelled with one iterator, which it resets for another field, and with a default value that it writes whenever it finds no value.
- Folding.FoldedFilterKeepsResult: speaks of the filters that `Evaluator.ResultIsMeaning` covers, and so do `FilterMeaning.FilterNode`, `Filters.Create` and `Filters.FilterAll` (the predicate `WholeFilter`); for all others `FilterMeaning.FoldedSays` gives the value with one value, or the default, for each field.
- EscapeNotation.ReadsBackExactly: for an input with a backslash it says only that it is not read back; the code does not escape the backslash.
- BlockPolicy.TemplatesWrittenOnce: a template that is replaced and put back counts as a change.
- Parser.PrintParse: a name with its prefix is kept as a pair of prefix and name; the code joins them with a blank.
- Timestamps.HpNanosRoundTrip: seconds before 1970 are outside.
- Timestamps.LpRoundTrip: values behind the wrap of 2036 are outside; `Timestamps.WrapsIn2036` says what happens there.
- JsonString.JsonRoundTrip: the reader of JSON strings knows no surrogate pairs, which the writer never produces.
- The file is a sequence of octets that is written and read at once: asynchronous I/O, locks, short writes and failing system calls are not modelled.
- LZ4 and ZSTD are a pair of functions with unpack(pack(x)) = x and a size bound.
- The Template Manager is a map from IDs to templates: its history, snapshots, garbage and time stamps are left out, and so is the assignment of an Information Element manager to open files.
- Contexts are kept in one map from pairs of session and ODID; the code nests two maps.
- The nodes of an evaluation tree are numbered instead of allocated; its destructors and the printing of trees are left out.
- The scanner: tokens are given. Type resolution of filters (overloads, casts, list types) is left out.
- `session_get`, `session_list`, `session_odids`, `tmplt_get` and the C interface around both objects, which only hand out or translate what is modelled.
- Conversion of floating-point numbers, addresses, local time and time zones, structured data types, and whole records as JSON.
- `i32toa_branchlut2` and `i64toa_branchlut2`.
