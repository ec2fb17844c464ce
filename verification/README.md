# Models of the system programming exercises

Dafny models, with proofs, of the parts of the repository that hold protocols, process
graphs, in-place algorithms and data structures. System calls act on an abstract state:
descriptor tables with lowest-free-number allocation, pipes with a capacity, semaphores,
queues, FIFOs and files. `dafny verify dfyconfig.toml` checks the whole project.

| files | what they model |
|---|---|
| `ShellSyntax`, `Vectors`, `Descriptors`, `CStrings`, `Lists`, `Ranges` | argument vectors, NULL-terminated arrays, descriptor tables, C strings, positions in lists, ranges of sequence numbers |
| `PipelineMachine`, `PipeCommand`, `RunCommand`, `Parse`, `Shell` | the pipeline shell, from the characters of a line to all schedules of its processes |
| `SharedMemory` | the transfer through shared memory under two semaphores |
| `PidTree` | the list of processes linked into a forest in place and printed from its roots |
| `DictFile` | the file of `convert`, whose words end in a newline, and the linear search that reads it |
| `SortedDict`, `DictServer` | the binary search in the sorted file of words without newlines, and the forking server |
| `MsgQueue`, `FifoServer`, `FifoNonblock` | the two sequence-number servers with any number of clients |
| `Relay`, `Popen`, `Tail` | the uppercase relay, the pid list of popen, the backward scan of tail |

Code that one process executes is a method, on arrays and objects where the original changes
them in place, and is proved against a specification function; the properties are proved
about that function. Code whose point is what several processes do together is a set of
steps on a state: one step is one system call or one access to shared state of one process,
a run is any sequence of steps from an initial state, and the main results speak of every
state of every run. A read or write that may be partial takes its size from outside.

Where the code and its own documentation differ the model follows the code:

- `pipe_present` promises -1 for a pipe symbol at the end (SP_HW5/part2/pipe_present.c:11) and
  returns 0 (line 28-29); `MissingExactlyWhen` says what is reported. Without a pipe symbol it
  returns nothing; the model takes the documented 0.
- `parse` makes the block for each word by the length of the word before it
  (SP_HW5/part2/parse.c:54-58), so `strcpy` writes past the block when a word is longer, as on
  `ls -la`. The methods take what the allocator really sets aside as a function `room`;
  `FitsExactlyWhen` says what the language itself promises.
- `< in > out` loses the output file: `redirect_in` puts NULL in place of `<`, which hides the
  rest of the vector (`OutputRedirectionHonouredExactlyWhen`, `InputFirstLosesOutput`).
- `lookup1` keeps the last record's word past the end of the file and shortens it by one each
  time round, so it finds proper prefixes of that word (`Lookup1IsSearchExactlyWhen`).
- `tail` says that it fails when asked for more lines than there are (SP_HW2/README.md:13); it
  also fails for exactly as many, since it needs the newline before them (`Tail`).
- A child of `my_popen` with type `w` keeps the write end of its own pipe and never sees an end
  of file (`PipeEndsAreWithTheirOwn`).
- The blocking FIFO server waits for ever for a client that never reads, as its comment says
  (`WaitsExactlyWhen`, `WaitsForever`); the nonblocking one that it recommends passes over
  exactly the honest clients that open too late (`ServedExactlyIfInOpen`).
- The message server can wait for ever on a queue full of requests, exactly when there are more
  clients than places (`StuckExactlyWhen`, `ServedExactlyWhen`).
- The relay can get stuck with both pipes full, exactly for inputs of a certain length
  (`JamsExactlyWhen`); it cannot when pipes transfer whole chunks (`WholeTransfersDeliver`).
- The remote lookup takes a stored definition `Not Found!` for a miss
  (`RemoteIsLocalExactlyWhen`); `lookup5` needs the sorted file that its comment assumes
  (`FindsAllExactlyWhen`), and each child of the server keeps that file open on descriptor 3.
- The files of the two dictionaries differ: `convert` stores a newline behind each word, and
  `lookup5` compares whole words, so it would find no typed word in a file of `convert`.

## Model

| member | source | states |
|---|---|---|
| PipelineMachine.EveryScheduleComposes | SP_HW5/part2/pipe_command.c:17-120 | For every pipeline of non-empty segments, every pipe capacity above zero, every schedule of the system calls and every size of the reads and writes: the output so far is a prefix of the composition of the commands on the input, and a run that cannot go on has exited every process, each on its own segment, and written all of the composition. Commands may write before they have read everything. |
| PipelineMachine.RunsAreFinite | SP_HW5/part2/pipe_command.c:65-115 | Every run is bounded by a measure of its first state, so none goes on for ever. |
| PipelineMachine.StepDecreases | SP_HW5/part2/pipe_command.c:65-115 | Each system call of each process uses up some of the bounded work. |
| PipelineMachine.Progress | SP_HW5/part2/pipe_command.c:65-115 | Unless all processes have exited some process can move: no deadlock over any pipe, whatever its capacity. |
| PipelineMachine.EveryStateIsWired | SP_HW5/part2/pipe_command.c:79-115 | At every moment a running process executes its own segment, reads the pipe before it on 0, writes the pipe after it on 1 (the inherited ends at both extremes), has the inherited 2 and exactly its left over read ends at 3 to k+2; no process is killed or fails. |
| PipelineMachine.WriteEndsAreExclusive | SP_HW5/part2/pipe_command.c:87-107 | At every moment the write end of pipe q is held by process q only, apart from the forked child before its first close. |
| PipelineMachine.WriteEndHolder | SP_HW5/part2/pipe_command.c:65-107 | Between which calls a process being built holds which write end, both directions. |
| PipelineMachine.EofMeansExited | SP_HW5/part2/pipe_command.c:87-107 | When nobody holds the write end a process reads from, the process before it has exited and has written its whole output: an end of file never comes early. |
| PipelineMachine.NextCanRead | SP_HW5/part2/pipe_command.c:99-115 | A process that still runs has a live reader behind its pipe, so no write raises SIGPIPE. |
| PipelineMachine.StepKeepsInv | SP_HW5/part2/pipe_command.c:24-117 | Every step of every process keeps the invariant on tables, vectors and bytes. |
| PipelineMachine.RunKeepsInv | SP_HW5/part2/pipe_command.c:24-117 | The invariant holds in every state of every run and the measure drops with each step. |
| PipeCommand.PipePresent | SP_HW5/part2/pipe_present.c:14-38 | The index loop gives -1 for an empty vector or a pipe symbol first, 0 without a split, else the index of the first pipe symbol, which is not the last word. |
| ShellSyntax.PipeIndex | SP_HW5/part2/pipe_present.c:9-38 | What the three kinds of result say about the vector. |
| ShellSyntax.JoinSplits | SP_HW5/part2/pipe_present.c:14-38 | The first split of joined segments falls right behind the first segment and leaves the joined rest. |
| PipeCommand.LeftVector | SP_HW5/part2/pipe_command.c:42-47 | The copied vector holds exactly the words before the pipe symbol. |
| PipeCommand.Process.Pipe | SP_HW5/part2/pipe_command.c:65-68 | A new pipe on the two lowest free descriptors. |
| PipeCommand.LeftSide | SP_HW5/part2/pipe_command.c:87-93 | Entry by entry: the write end is on 1, neither number that pipe returned is left, and every other descriptor is as it was. |
| PipeCommand.RightSide | SP_HW5/part2/pipe_command.c:107-113 | Entry by entry: the read end is on 0, the write end is gone, and every other descriptor, the read end among them, is as it was. |
| PipeCommand.SplitHere | SP_HW5/part2/pipe_command.c:65-113 | pipe, fork and the calls of each side leave the two tables that the wiring of the whole pipeline is made of. |
| PipeCommand.PipeAndExec | SP_HW5/part2/pipe_command.c:17-120 | The recursion on the argument vector launches exactly the processes of the wiring function and makes one pipe fewer than processes. |
| PipeCommand.PipelineIsWired | SP_HW5/part2/pipe_command.c:17-120 | On n segments exactly n processes; process k executes exactly segment k with the table that the running machine has for it. |
| PipeCommand.NoWordIsLost | SP_HW5/part2/pipe_command.c:42-59 | For every vector, well formed or not, the launched vectors joined by pipe symbols are the vector. |
| PipeCommand.MissingExactlyWhen | SP_HW5/part2/pipe_command.c:24-34 | A missing command is reported by the last process only, exactly for an empty vector, a leading pipe symbol or two in a row; a trailing pipe symbol goes to the command as an argument. |
| RunCommand.IsBackground | SP_HW5/part2/is_background.c:9-35 | True exactly when `&` is among the words; every such cell is NULL afterwards and no other changed; later scans see the words before the first one. |
| RunCommand.MarksAreCut | SP_HW5/part2/is_background.c:24-30 | Clearing the marks leaves a terminated vector of the words before the first mark. |
| RunCommand.ScanFor | SP_HW5/part2/redirect_in.c:33-34 | The forward scan stops at the first symbol or at the NULL. |
| RunCommand.UseFile | SP_HW5/part2/redirect_out.c:39-54 | After open, dup2 and close the file is on the standard descriptor and no other entry has changed; when that descriptor was closed before and lowest, the last close loses it again. |
| RunCommand.Redirect | SP_HW5/part2/redirect_in.c:21-67 | Vector and table after a redirection; both are unchanged when there is no symbol, no file name or the file does not open, and the result is -1 exactly in the latter two cases and for an empty vector. |
| RunCommand.RedirectionIsTaken | SP_HW5/part2/redirect_out.c:33-62 | A redirection at the end of the line replaces the standard descriptor, leaves the words before it and no further descriptor. |
| RunCommand.RunLine | SP_HW5/part2/run_command.c:15-77 | The edits in the order of the program followed by the pipeline launch what the specification of the line says. |
| RunCommand.LineMeansPipeline | SP_HW5/part2/run_command.c:25-74 | A pipeline followed by `> out`, `< in` and `&`, each of the three optional, launches exactly its segments; the first reads `in`, the last writes `out`, and the tables are those of a pipeline started from {0, 1, 2}. |
| RunCommand.WholeLineInFull | SP_HW5/part2/run_command.c:25-74 | One line with every symbol, literally: its two processes, their words and every entry of their tables. |
| RunCommand.EditsLeave | SP_HW5/part2/run_command.c:54-72 | After the edits of such a line the vector is the pipeline and the table is {0, 1, 2} again. |
| RunCommand.OutputRedirectionHonouredExactlyWhen | SP_HW5/part2/run_command.c:25-72 | On any line the output redirection takes effect exactly when its symbol and its file name stand before the first `&`, the file opens, and both stand before an input redirection that takes effect. |
| RunCommand.MissingNameLosesOutput | SP_HW5/part2/redirect_out.c:39-44 | `cat > < in` opens no output either, although `>` stands first. |
| RunCommand.InputFirstLosesOutput | SP_HW5/part2/redirect_in.c:59-60 | `cat < in > out` never opens `out`. |
| Parse.Strtok | SP_HW5/part2/parse.c:29-58 | One call of strtok: the token and the place to go on stand for exactly the words that were still to come, and the rest gets shorter. |
| Parse.Install | SP_HW5/part2/parse.c:55-57 | The text of the block in the last cell and the vector grown by one; the copy before it is Strcpy. |
| Parse.Strcpy | SP_HW5/part2/parse.c:54-54 | The block holds the token afterwards; the copy stays inside exactly when the token is shorter than the block is long. |
| Parse.NextWord | SP_HW5/part2/parse.c:53-59 | One round of the loop moves one word from the line through its block to the vector, makes the next block by the length of this word and cuts the next token; it fails exactly when the word does not fit the block it has. |
| Parse.Collect | SP_HW5/part2/parse.c:39-59 | The loop collects all words from the first token on, exactly when each fits the block made for the word before it. |
| Parse.Parse | SP_HW5/part2/parse.c:12-69 | Nothing for an empty line; a copy past its block exactly when some word does not fit the block made for the word before it; else the NULL-terminated vector of the words of the line. |
| Parse.FitsExactlyWhen | SP_HW5/part2/parse.c:53-59 | With blocks of the size asked for, each word fits exactly when no word is longer than the one before it. |
| Parse.OrdinaryLineOverruns | SP_HW5/part2/parse.c:53-59 | On `ls -la` the second word does not fit. |
| Parse.TokensOfLine | SP_HW5/part2/parse.c:14-29 | The cutting alone: any list of words joined by non-empty runs of space, tab or newline, with any run before and after, is cut into that list. |
| Parse.LineOfTokens | SP_HW5/part2/parse.c:14-29 | Conversely every line is its words with such gaps, so the words are the only such list. |
| Parse.BlanksAre | SP_HW5/part2/parse.c:14-14 | Blanks are space, tab and newline. |
| Shell.IsBuiltin | SP_HW5/part2/builtin.c:157-166 | True exactly for one of the ten keywords. |
| Shell.RunText | SP_HW5/part2/shell.c:16-31 | From the characters of a line to its processes: undefined exactly when a word does not fit the block made for the word before it; else a built-in command exactly for a keyword; else exactly the segments, wired between the files named on the line. |
| Shell.LineComputes | SP_HW5/part2/run_command.c:25-75 | Every schedule of the processes of such a line is finite and computes the composition of its commands on what the first reads, written where the last one writes. |
| SharedMemory.OneToken | SP_HW9/share_mem_writer.c:135-185 | In every state of every run there is exactly one token once the writer has made it; the two processes are never both in their sections; no semaphore call finds the set removed, and the set is removed only after the reader's last release. |
| SharedMemory.CountIsOwnChunk | SP_HW9/share_mem_writer.c:161-169 | The count that the writer reads after its release, wherever the reader is, is the length of the chunk it consumed last, and zero exactly at the end of the input. |
| SharedMemory.CountIsStable | SP_HW9/share_mem_writer.c:146-172 | From one store to the next neither the count nor the buffer changes. |
| SharedMemory.ReaderSeesOneChunk | SP_HW9/share_mem_reader.c:94-112 | While the reader is between its reserve and its release the writer stores nothing, by ownership of the token, so neither the count nor the buffer changes. |
| SharedMemory.TransferIsExact | SP_HW9/share_mem_reader.c:85-122 | For every input and every chunking the output is a prefix of what the writer consumed; at the end it is the input, both byte counters are its length, and both transfer counters are the number of steps of the run in which the writer read something, so xfrs <= length <= 4096 * xfrs. |
| SharedMemory.AnyChunkIsRead | SP_HW9/share_mem_writer.c:155-155 | A read of the writer can take any number of bytes up to 4096 and up to what is left, none only at the end of the input; they come to the start of the buffer with their count. |
| SharedMemory.NoDeadlock | SP_HW9/share_mem_writer.c:146-179 | Unless both have finished one of the two can move. |
| SharedMemory.StepDecreases | SP_HW9/share_mem_writer.c:146-185 | Every step of either process lowers a measure of the input left and both program counters. |
| SharedMemory.EveryRunFinishes | SP_HW9/share_mem_reader.c:85-119 | Every run is finite and one that cannot go on has finished both processes. |
| SharedMemory.StepKeepsInv | SP_HW9/share_mem_reader.c:85-119 | Every statement of either process keeps the ownership invariant. |
| SharedMemory.RunKeepsInv | SP_HW9/share_mem_reader.c:85-119 | The invariant holds in every state of every run. |
| PidTree.Append | SP_HW4/draw_pid_tree.c:91-111 | A new node at the end of the list. |
| PidTree.Build | SP_HW4/draw_pid_tree.c:47-119 | The linked list has one node per record, in order, without parents or children. |
| PidTree.FindParent | SP_HW4/draw_pid_tree.c:145-153 | The node of the first record with the pid, or NULL. |
| PidTree.Adopt | SP_HW4/draw_pid_tree.c:127-129 | The scan for the first NULL in the children array and the two stores put the node behind the children it already had. |
| PidTree.LinkOne | SP_HW4/draw_pid_tree.c:122-131 | One round of the loop: parent and children arrays are right for one more node. |
| PidTree.Link | SP_HW4/draw_pid_tree.c:122-131 | After the loop each children array holds exactly the nodes whose ppid names the node, in list order, followed by NULL, and each parent field names its node. |
| PidTree.PrintTree | SP_HW4/draw_pid_tree.c:155-177 | The recursion ends, although other nodes may form cycles, and prints the drawing of the node's subtree, first the node itself at its level with its pid and text. |
| PidTree.PrintRoots | SP_HW4/draw_pid_tree.c:134-139 | The loop prints the drawings of the roots in list order; line by line as for DrawProcesses. |
| PidTree.DrawProcesses | SP_HW4/draw_pid_tree.c:47-139 | For any records without pid 0 and at most 511 children a node: the last line above a line that is less indented shows its parent. With distinct pids a record's own pid and text stand on one line exactly, at the length of its chain of parents, when that chain ends at a root, no line is anything else, and siblings stand in list order. |
| PidTree.RenderPrintsForest | SP_HW4/draw_pid_tree.c:134-177 | With distinct pids the rendered lines hold each record's own pid and text once at the length of its chain of parents and nothing else. |
| PidTree.RenderKeepsOrder | SP_HW4/draw_pid_tree.c:134-177 | Of two records with the same parent, or two roots, the earlier one is printed above. |
| PidTree.ForestPrintsEachOnce | SP_HW4/draw_pid_tree.c:134-177 | Every node whose chain of parents reaches a root is printed exactly once, at the level of its depth, and no other node or level is printed. |
| PidTree.IndentationShowsParents | SP_HW4/draw_pid_tree.c:158-175 | The drawing determines the tree: the last line above a line that is less indented is its parent's, one level to the left. |
| PidTree.DepthIsBounded | SP_HW4/draw_pid_tree.c:145-175 | A node is never deeper than there are other nodes, which bounds the recursion. |
| PidTree.DepthIsUnique | SP_HW4/draw_pid_tree.c:145-175 | A node has one depth at most. |
| PidTree.DepthIsChain | SP_HW4/draw_pid_tree.c:145-175 | With distinct pids the depth of a record is the number of steps in a chain of records from it to a root, each naming the next as its parent. |
| PidTree.ChildrenAre | SP_HW4/draw_pid_tree.c:122-131 | A position is among the children of p exactly when its parent is p. |
| DictFile.Stream.Fgets | SP_HW5/part3/lookup1.c:36-41 | fgets: up to a newline or n-1 characters; without a character left the buffer keeps its old value and the end-of-file mark is set (section 7.21.7.2 of ISO C11). |
| DictFile.Strcat | SP_HW5/part3/convert.c:84-91 | Appending to a padded field leaves the padded concatenation. |
| DictFile.ReadDefinition | SP_HW5/part3/convert.c:67-91 | The text field holds the joined definition lines, a newline and NULs; the input stands behind the blank line. |
| DictFile.WriteEntry | SP_HW5/part3/convert.c:59-97 | One entry of the text becomes one record. |
| DictFile.Convert | SP_HW5/part3/convert.c:39-98 | A printed list of entries, with or without one extra blank line, becomes exactly one padded 512-byte record per entry. |
| DictFile.RecordAt | SP_HW5/part3/dict.h:22-26 | Where the k-th record keeps its word and its text. |
| DictFile.EntryInFull | SP_HW5/part3/dict.h:22-26 | One entry literally: its lines in the text, and the 32 and 480 bytes of its record. |
| DictFile.LocalDictionary.ReadRecord | SP_HW5/part3/lookup1.c:36-45 | One record by fgets and fseek; past the end the buffers keep the last record. |
| DictFile.LocalDictionary.Lookup | SP_HW5/part3/lookup1.c:11-57 | The search ends by a lexicographic measure (records left, length of the kept word) and gives the listed definition, or the last one for a proper prefix of the last word. |
| DictFile.Lookup1IsSearchExactlyWhen | SP_HW5/part3/lookup1.c:34-54 | lookup1 answers as a search of the entry list exactly unless the word is not listed and is a non-empty proper prefix of the last word. |
| DictFile.PrefixOfLastWordIsFound | SP_HW5/part3/lookup1.c:34-54 | `cat` is found in a dictionary that only has `cats`; its definition is both lines joined. |
| DictFile.ConvertThenLookup | SP_HW5/part3/lookup1.c:34-52 | Round trip: looking a word up in the converted file gives the joined definition of its first entry, and nothing for a word that is neither listed nor a proper prefix of the last one. |
| SortedDict.CmpIsAntisymmetric | SP_HW11/part1/lookup5.c:22-24 | The comparison is antisymmetric and zero exactly for equal strings. |
| SortedDict.CmpIsTransitive | SP_HW11/part1/lookup5.c:22-24 | The comparison is transitive, strictly when one side is strict. |
| SortedDict.CmpIsLexicographic | SP_HW11/part1/lookup5.c:22-24 | Negative exactly for a proper prefix or where the first difference is a smaller character (section 7.24.4.2 of ISO C11). |
| SortedDict.Halves | SP_HW11/part1/lookup5.c:22-24 | What one comparison says about all records on that side of a sorted table. |
| SortedDict.HalvingFinds | SP_HW11/part1/lookup5.c:64-64 | On a sorted table halving ends at the record with the key, or there is none. |
| SortedDict.BSearch | SP_HW11/part1/lookup5.c:64-64 | The loop gives the record that halving ends at, on a table in any order; on a sorted one that is a record with the word, or none has it (section 7.22.5.1 of ISO C11). |
| SortedDict.Lookup5IsScan | SP_HW11/part1/lookup5.c:64-73 | On a strictly sorted table the fast lookup answers as the search through all records. |
| SortedDict.FindingAllMeansSorted | SP_HW11/part1/lookup5.c:22-24 | A range in which halving finds each record by its own word is strictly sorted. |
| SortedDict.FindsAllExactlyWhen | SP_HW11/part1/lookup5.c:2-7 | Halving finds every record of a table by its word exactly when the table is strictly sorted; the order that the comment assumes is needed as well as enough. |
| SortedDict.MappedDictionary.Lookup | SP_HW11/part1/lookup5.c:26-75 | Every call answers as halving does, and on a strictly sorted table as a linear search does, with its text or the sentinel; the table is mapped once. |
| SortedDict.OnlyOne | SP_HW11/part1/lookup5.c:64-73 | In a strictly sorted table the record with a word is the first one a linear search meets. |
| DictServer.EveryChildHasItsOwnClient | SP_HW11/part1/usock_server.c:56-111 | In every state of every run the descriptor a child answers on is the connection its own client made and no other descriptor of it is a connection; once it has closed the listener its whole table is the three standard descriptors and this one, and from its first lookup on, and only then, also the dictionary file on 3; the parent waits in accept with its first table. |
| DictServer.ConnectionsAreNotShared | SP_HW11/part1/usock_server.c:60-108 | No two children ever hold the same connection. |
| DictServer.WaitingIsServed | SP_HW11/part1/usock_server.c:60-108 | As long as the client has not closed it, a connection is in the listen queue, with the parent or with its child, so no client reads an end of file. |
| DictServer.ParentKeepsInv | SP_HW11/part1/usock_server.c:56-111 | accept on the lowest descriptor, fork and close keep the tables and the order of the listen queue. |
| DictServer.ChildKeepsInv | SP_HW11/part1/usock_server.c:71-104 | Every call of a child keeps its table, with the file that its first lookup opens (SP_HW11/part1/lookup5.c:42) and never closes, and its client's one question on its way, with the word or with the answer to it. |
| DictServer.ClientKeepsInv | SP_HW11/part1/lookup7.c:47-66 | So does every write, read and end of a client. |
| DictServer.ConnectKeepsInv | SP_HW11/part1/lookup7.c:23-42 | A connection joins the end of the listen queue. |
| DictServer.QueueHolds128 | SP_HW11/part1/usock_server.c:49-60 | At most 128 connections wait in every state of every run, and a client that wants to connect waits exactly when there are 128. |
| DictServer.RunKeepsInv | SP_HW11/part1/usock_server.c:56-111 | The invariant holds in every state of every run, and every step lowers a measure of what is left to do. |
| DictServer.RemoteIsLocalExactlyWhen | SP_HW11/part1/lookup7.c:62-66 | On a strictly sorted file every question has the same answer through the server as locally exactly when no definition in the file is the sentinel. |
| DictServer.EveryClientGetsLocalAnswers | SP_HW11/part1/usock_server.c:56-111 | For any number of clients and any interleaving each client has received, in order, the answers of a local lookup5 to its own questions, and on a strictly sorted file those of a linear search, when no definition is the sentinel. |
| DictServer.EveryQuestionIsAnswered | SP_HW11/part1/usock_server.c:56-111 | Every run is finite and one cannot go on exactly when every question of every client is answered, every child has ended and the parent waits in accept with its first table and an empty queue. |
| Ranges.TilesPartition | SP_HW8/ch46/msq_server.c:92-92 | Ranges handed out from a running counter are pairwise disjoint, start at the sum of the lengths before them and cover everything up to the counter. |
| MsgQueue.EachClientGetsItsOwn | SP_HW8/ch46/msq_client.c:53-65 | For any interleaving a client that has a number got it from a reply made for its own pid and length, the only one ever made for it. |
| MsgQueue.RangesTileTheCounter | SP_HW8/ch46/msq_server.c:75-95 | In every state the ranges handed out tile the counter, they answer the first requests posted along the run, in the order of posting, and the server never takes a reply for a request. |
| MsgQueue.ReceivesEarliest | SP_HW8/ch46/msq_server.c:77-77 | The request that the server receives is the first of the requests in the queue, in order. |
| MsgQueue.StepKeepsOrder | SP_HW8/ch46/msq_server.c:77-92 | Requests granted, in the server's hand and in the queue, in this order: a client's post adds its own at the end, and no other step of anyone changes them. |
| MsgQueue.AskedArePosts | SP_HW8/ch46/msq_client.c:53-65 | Those requests are exactly the posts of the run so far, in order. |
| MsgQueue.ReplyFor | SP_HW8/ch46/msq_client.c:65-65 | The reply a waiting client finds by its pid was granted to it. |
| MsgQueue.StuckExactlyWhen | SP_HW8/ch46/msq_server.c:87-90 | Nobody can move exactly when every client is served or the queue is full of requests while the server has to reply. |
| MsgQueue.EnoughRoomNeverJams | SP_HW8/ch46/msq_server.c:87-90 | With room for one message per client the queue never jams. |
| MsgQueue.EveryClientIsServed | SP_HW8/ch46/msq_server.c:75-95 | With that room every run is finite and ends with every client served. |
| MsgQueue.MoreClientsCanJam | SP_HW8/ch46/msq_server.c:75-95 | For every number of places and any clients more than that there is a run that jams. |
| MsgQueue.ServedExactlyWhen | SP_HW8/ch46/msq_server.c:75-95 | Every run can end only with every client served, exactly when there is a place for each client. |
| MsgQueue.StepKeepsInv | SP_HW8/ch46/msq_server.c:75-95 | Every step of the server and of any client keeps the invariant on the messages and who they are for. |
| MsgQueue.StepDecreases | SP_HW8/ch46/msq_server.c:75-95 | Every step lowers a measure of requests, replies and clients to come. |
| FifoServer.OpenedRangesTileTheCounter | SP_HW8/ch44/fifo_server.c:98-124 | In either mode and with any failures the numbers put into the responses, with the lengths asked for, tile the counter: a failed open takes nothing, a failed write leaves its range unused. |
| FifoServer.FailedWriteLeavesGap | SP_HW8/ch44/fifo_server.c:106-122 | The numbers of a request whose response could not be written start at the sum of those used before it and are nobody's: no client's range meets them, and the counter is the sum of all used. |
| FifoServer.EachClientGetsItsOwn | SP_HW8/ch44/fifo_client.c:69-86 | A number that a client got starts the range logged for its own request, which was dealt with once; a malicious client never gets one. |
| FifoServer.DeliveredRangesAreDisjoint | SP_HW8/ch44/fifo_server.c:112-122 | The ranges of two clients that got a number do not meet. |
| FifoServer.ServerKeepsAsked | SP_HW8/ch44/fifo_server.c:98-124 | The server takes the requests in the order of writing and loses none. |
| FifoServer.ClientAsksLast | SP_HW8/ch44/fifo_client.c:69-72 | A client's request with its own pid and length goes behind all others, and no other step of a client changes the requests. |
| FifoServer.NonblockFinishesAlone | SP_HW8/ch44/fifo_server.c:104-122 | In nonblocking mode the server deals with the request it has without a step of any client, whatever its calls return. |
| FifoServer.NonblockServerNeverWaits | SP_HW8/ch44/fifo_server.c:64-66 | So it does at any point of a nonblocking run, within four calls. |
| FifoServer.WaitsExactlyWhen | SP_HW8/ch44/fifo_server.c:106-106 | In blocking mode a server in its open goes on at once or after one step of its peer exactly unless the peer is malicious or has ended. |
| FifoServer.WaitsForever | SP_HW8/ch44/fifo_server.c:106-106 | Such a peer holds the server up for good: nothing more is dealt with and nobody's FIFO is filled. |
| FifoServer.MaliciousClientHoldsUpServer | SP_HW8/ch44/fifo_client_malicious.c:52-87 | The documented case as a run: after one malicious client the blocking server serves no other. |
| FifoServer.OnlyDeliveredGet | SP_HW8/ch44/fifo_server.c:99-115 | A client whose request was discarded, or whose open or write failed, has no number. |
| FifoServer.LateClientIsPassedOver | SP_HW8/ch44/fifo_server.c:106-110 | A run of the nonblocking server in which an honest client opens its FIFO too late and then waits for ever. |
| FifoNonblock.ServedExactlyIfInOpen | SP_HW8/ch44/fifo_server.c:64-66 | In every nonblocking run that cannot go on, with no failing call and nobody killed, the server has come to each honest client's FIFO, and the client has its number exactly if it was in its own open then; otherwise it waits there and the failed open is logged. |
| FifoNonblock.OpenMeets | SP_HW8/ch44/fifo_server.c:106-110 | The nonblocking open succeeds exactly if the client has called its own. |
| FifoNonblock.EndOfClient | SP_HW8/ch44/fifo_client.c:74-86 | When nobody can move an honest client has its number, or was passed over and waits in its open. |
| FifoNonblock.CalmStep | SP_HW8/ch44/fifo_server.c:98-124 | Every step of such a run keeps how far each honest client is. |
| FifoServer.HonestStuckExactlyWhen | SP_HW8/ch44/fifo_server.c:98-124 | With honest clients and no failing call, nobody can move exactly when every client has its number. |
| FifoServer.HonestClientsAreServed | SP_HW8/ch44/fifo_server.c:27-31 | Then every run in blocking mode has at most 11 steps per client and ends with every client served. |
| FifoServer.StepKeepsInv | SP_HW8/ch44/fifo_server.c:98-124 | Every call of the server and of any client, failing or not, keeps the invariant on log, counter and FIFOs. |
| Relay.OutputIsUpperPrefix | SP_HW6/two_pipe.c:47-65 | For every interleaving and every partial read and write: upper case of what was read is output, reply buffer, pipe 2, child's buffer, pipe 1 and unsent bytes in this order (upper case where still to be converted), so the output is a prefix of the upper-case input. |
| Relay.OutputByteByByte | SP_HW6/two_pipe.c:56-58 | Each byte written, in every state of every run: in place of a byte 97 to 122 the one with the same place among 65 to 90, any other byte unchanged. |
| Relay.StuckExactlyWhen | SP_HW6/two_pipe.c:81-105 | Neither process can move exactly when all is delivered or each waits to write into a full pipe. |
| Relay.EveryRunDeliversOrJams | SP_HW6/two_pipe.c:81-105 | Every run has at most 12 steps per byte and 3 more, and one that cannot go on has delivered the whole input or is stuck on two full pipes. |
| Relay.WholeTransfersDeliver | SP_HW6/two_pipe.c:81-105 | When a pipe takes a chunk of 4096 bytes whole and a read takes all there is, the pipes are never both full and a run stops only with everything delivered. |
| Relay.JamNeeds | SP_HW6/two_pipe.c:81-105 | Both pipes full takes an input of 2 * cap + 2 bytes and one more for each round that the parent needs to read them in. |
| Relay.JamsExactlyWhen | SP_HW6/two_pipe.c:81-105 | For every capacity and every input some run gets stuck on full pipes exactly when the input has at least 2 * cap + 2 + 2 * cap / 4095 bytes (whole division). |
| Relay.DeliversExactlyWhen | SP_HW6/two_pipe.c:81-105 | So every run can end only with everything delivered exactly for the inputs shorter than that. |
| Relay.ParentConserves | SP_HW6/two_pipe.c:81-105 | Every call of the parent keeps the bytes and their order. |
| Relay.ChildConserves | SP_HW6/two_pipe.c:47-65 | So does every call of the child and every round of its conversion loop. |
| Relay.StepDecreases | SP_HW6/two_pipe.c:47-105 | Every step lowers a weighted count of the bytes on their way. |
| Popen.Parent.Child | SP_HW6/p_open_close.c:98-134 | The child's table when it executes its command, after the loop that closes the descriptors in the pid list. |
| Popen.Parent.MyPopen | SP_HW6/p_open_close.c:76-193 | Table, pid list and new stream after the call: for r the caller reads the pipe that the child has as 1, for w it writes the pipe that the child has as 0; it exits exactly for a type other than r and w; the pid list stays non-zero exactly at the open streams, each with its own child. |
| Popen.Parent.MyPclose | SP_HW6/p_open_close.c:196-222 | Waits for the stream's own child, closes its descriptor and clears its entry; it exits exactly for a descriptor that is no open stream. |
| Popen.Calls | SP_HW6/p_open_close.c:76-222 | Any sequence of calls: the pid list stays right and the state is the one the specification of the sequence gives. |
| Popen.NewChildHoldsNoEarlierStream | SP_HW6/p_open_close.c:107-134 | After any sequence of calls a new child executes its command without any descriptor of an earlier stream, with all other descriptors of its parent and with the new pipe as its standard input or output. |
| Popen.PipeEndsAreWithTheirOwn | SP_HW6/p_open_close.c:98-174 | After any sequence of calls the far end of a stream's pipe is with its own child and nobody else, the near end with the caller and, exactly for type w, also with that child. |
| Popen.AfterAllIsSound | SP_HW6/p_open_close.c:76-222 | Every sequence of calls keeps the invariant on who holds which pipe end. |
| Popen.PopenKeepsSound | SP_HW6/p_open_close.c:76-193 | So does one my_popen of either type. |
| Popen.PcloseKeepsSound | SP_HW6/p_open_close.c:196-222 | So does one my_pclose. |
| Tail.Tail | SP_HW2/tail.c:70-96 | The scan stays inside the buffer exactly when the file has more than n newlines, and then exactly what follows the newline with n more behind it is written. |
| Tail.TailIsUnique | SP_HW2/tail.c:74-81 | There is just one such end of a file. |
| Tail.TailIsLastLines | SP_HW2/tail.c:70-96 | Of a file of lines and perhaps an unfinished one that end is the last n lines and the unfinished one, provided there are more than n lines. |
| Tail.LastLines | SP_HW2/tail.c:70-96 | What is written for such a file, and that there is none for n or fewer lines. |
| Tail.TwoOfThree | SP_HW2/tail.c:70-96 | The last two lines of a file of three. |

## Left out

- Failing system calls: they succeed, except the failures that a result above names (files that do not open, FIFO reads, opens and writes that fail, wrong types of my_popen, commands that are missing).
- Protocols of several processes (SharedMemory, MsgQueue, FifoServer, Relay, DictServer, PipelineMachine) are steps on values; the objects and buffers of each process are fields of the state and not Dafny objects.
- Messages, prompts, usage checks, permissions and the format of printed numbers; a printed tree line is its level, its text and its pid.
- Integer width: counters, sequence numbers, lengths and pids are unbounded and lengths are not negative.
- SharedMemory.TransferIsExact: both programs share one layout with room for the whole buffer; the declared types of the count differ (SP_HW9/share_mem_writer.c:28, SP_HW9/share_mem_reader.c:22) and the mapping of 4096 bytes is smaller than the structure.
- SharedMemory.EveryRunFinishes: the reader starts with the semaphore set in place; a reader started before the writer fails at once.
- PipelineMachine.EveryScheduleComposes: a command reads its input to the end; one that stops reading early, and the SIGPIPE that then ends its writer, are not modelled.
- PipeCommand.PipeAndExec: the copy of the right half of the vector is not modelled, since it is never used (SP_HW5/part2/pipe_command.c:49-59), nor is the line printed after a failed execvp.
- RunCommand.Redirect: one method stands for both redirections, which differ in symbol, descriptor and open mode.
- RunCommand.RunLine: waiting for the foreground child.
- Shell.RunText: what a built-in command does; the limit of 255 characters to a line.
- Parse.Parse: a line of blanks alone, for which the code reads through a null pointer; what happens after a copy past its block; memory is not exhausted, and freeing it is not modelled.
- PidTree.DrawProcesses: reading and cutting up the files of /proc; records come as values, the list head starts as NULL, and a pid may occur twice.
- DictFile.Convert: words over 30 and definitions over 478 characters, empty definitions, and a last entry without a blank line after it, where the original overruns its buffers or never ends.
- SortedDict.MappedDictionary.Lookup: the table is kept between calls as the static variable and its comment intend; the code keeps the address in a local variable (SP_HW11/part1/lookup5.c:27-33).
- DictServer.EveryClientGetsLocalAnswers: a record is written and read whole; short reads of the stream, a server that is killed and clients that stop in the middle of a question are not modelled.
- MsgQueue.EachClientGetsItsOwn: the programs send and receive 10 bytes of a payload that holds 8 (SP_HW8/ch46/msq_server.c:17-29, 77, 87), so every receive writes behind its structure; messages are values here.
- MsgQueue.EveryClientIsServed: the limit of the queue is a number of messages; a limit in bytes and the removal of the queue at exit are not modelled.
- FifoServer.HonestClientsAreServed: blocking mode only; who is served in nonblocking mode is `FifoNonblock.ServedExactlyIfInOpen`, for runs that have come to their end.
- Relay.EveryRunDeliversOrJams: at the end of the input the parent does not exit but waits for a reply for ever, as the code does.
- Popen.Parent.MyPclose: whether the child ends is not modelled; the status is what waitpid delivers, and that a child of type w has no end of file to wait for is stated about its table only.
- Popen.Parent.MyPopen: descriptors of 100 and above, which the pid list has no room for.
- Tail.Tail: negative numbers of lines, and a file that changes between its two readings.
- SP_HW3 is an earlier copy of the shell; SP_HW11/part2 and SP_HW11/part3 repeat the dictionary over TCP and UDP.
- SP_HW7, SP_HW10 and SP_HW12: signal exercises whose loops never run as documented, pointers into another process's heap, and kernel watch numbers.
- SP_HW1, SP_HW5/part1, the file listings of SP_HW4, and the copy program and message-queue pair of SP_HW9: plumbing without a property of its own.
