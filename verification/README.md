# Grafana Alloy: graphs, configuration syntax, discovery targets and the worker runner

A Dafny model of five parts of Grafana Alloy, with proofs of what each is for. Each source file that
works by changing state is modelled in that form, a class with the fields of the original and methods
with its loops, and each such method is proved against a function or a property; what the source
promises is then proved of that function. Wherever the original ranges over a Go map, the model picks
the next element arbitrarily, so the results hold for every iteration order.

**The dependency graph** (`Digraphs`, `Graphs`, `Tarjans`, `Validation`, `Walks`, `WeakComponents`).
A graph keeps sets of incoming and outgoing edges that are updated in place. Strongly connected
components are exactly the classes of mutual reachability, dependencies first; `Validate` blames
exactly the nodes on cycles; a topological walk from the leaves calls exactly the nodes that reach no
cycle; weak components are connectivity classes cut down to a filter; a clone shares no set with its
original.

**The configuration syntax** (`Tokens` to `Formatting`). The scanner is a class with the offsets, the
look-ahead and the line table of the original, proved equal to a function of the text (`Lexis`), which takes
the longest token of the lexical grammar (`Literals`) and reads comments as blanks or newlines (`Comments`). The
parser, with its error recovery, accepts a token stream exactly if the documented grammar derives it
(`Documented`, by way of `Grammar`, `Soundness`, `Completeness`), and returns the one tree; its positions are those
of its tokens (`Spans`). The printer and the walker
write the tokens of a canonical tree; the printed text is scanned again (`Rescans`) and parsed again
(`PrintedFiles`), ending in `Formatting.FormatComesBack`, which speaks of texts only: source text, printed text,
and the trees they are parsed to.

**The worker runner** (`HashMaps`, `Runners`). The hash-bucketed task set refines a map from classes of
equal tasks. `ApplyTasks` and `Stop` are a system of steps taken by the caller, the iterating
goroutine, the stop goroutines and the workers in any order.

**Discovery targets** (`Targets`, `TargetHashes`, `TargetBuilders`, `TargetGroups`, `DistributedTargets`).
Two-layer label maps, the overlay builder, hashing, grouping with hash collisions and back, and the
split of targets over a cluster, each against one plain map or multiset.

**The reserved-keyword scan** (`ReservedKeywords`). A ring buffer and a greedy match against a
subsequence property.

## Where code and documentation part

- `Graph.Remove` (dag.go:80-98) says that it removes every edge to the node. It leaves it in the outgoing
  sets of other nodes. The two edge maps stay transposed, but an edge then leads to a node that is gone:
  exactly if another node points to the removed one (`Graphs.StepKeepsWellFormed`,
  `Graphs.RemoveLeavesDanglingEdge`). Components, `Validate`, `Walk` and weak components are proved on
  such graphs too; the topological order from the leaves is proved on graphs without dangling edges.
- `StronglyConnectedComponentsOrdered` (tarjan.go:23-26) says that it considers the given nodes only. It covers
  all that they reach.
- A call without arguments whose parentheses are on different lines is printed with a comma that the
  parser rejects (walker.go:328 lacks the length test of walker.go:226 and 289). That is the only way a
  formatted file is rejected.
- A quoted field name keeps its raw text (internal.go:699-702) and is quoted once more (walker.go:268-273). It
  survives exactly if it holds nothing to escape.
- The trailing comma of an object looks at the line of the last field's name, not of its value.
- The primary-expression rule for objects tests for a closing square bracket (internal.go:622-628);
  the outcome is the same.
- The lexical grammar (scanner.go:15-57) has no number with digits on both sides of the point, no upper-case exponent
  and no digits missing after a point, and lets a string run over lines; the code reads `1.5`, `1.` and `1E3` and ends
  such a string with an error (scanner.go:434-498).
- The documentation of the scanner (scanner.go:55-60) allows `\'` in string literals; `scanEscape` (502-553)
  rejects it.

## Model

| member | source | states |
|---|---|---|
| `Graphs.NodeSet.Clone` | upstream/internal/dag/dag.go:39-45 | a new set object with the same nodes; updates of either are not seen in the other |
| `Graphs.CloneSets` | upstream/internal/dag/dag.go:223-228 | every set of an edge map is copied into a new object, no two keys share one, and the copies hold what the originals hold |
| `Graphs.Graph.constructor` | upstream/internal/dag/dag.go:48-61 | an empty graph whose sets belong to it alone |
| `Graphs.Graph.Add` | upstream/internal/dag/dag.go:66-74 | updates the graph in place to the abstract graph with the node, and panics, changing nothing, exactly if another node has its NodeID |
| `Graphs.Graph.Remove` | upstream/internal/dag/dag.go:83-98 | updates the sets in place to the abstract graph after the removal (StepEdges tells which edges that leaves); no-op for a missing node |
| `Graphs.Graph.AddEdge` | upstream/internal/dag/dag.go:104-124 | both edge maps end up with the edge, in sets made where they were missing; panics, changing nothing, exactly if an end is no node |
| `Graphs.Graph.RemoveEdge` | upstream/internal/dag/dag.go:128-138 | neither edge map has the edge any more and everything else is as it was |
| `Graphs.StepEdges` | upstream/internal/dag/dag.go:66-138 | which edges there are after each operation, read from either end; Remove leaves the edges into the node from other nodes, against its comment |
| `Graphs.EdgeUndone` | upstream/internal/dag/dag.go:104-138 | removing an edge just added gives back the edges there were, in both maps |
| `Graphs.StepKeepsMaps` | upstream/internal/dag/dag.go:66-138 | every operation keeps the incoming edges the exact transpose of the outgoing ones, nodeByID in bijection with nodes, and edges starting at nodes |
| `Graphs.StepKeepsWellFormed` | upstream/internal/dag/dag.go:66-138 | an operation keeps all edges between nodes if and only if it does not remove a node that another node points to |
| `Graphs.RunKeeps` | upstream/internal/dag/dag.go:66-138 | every run of operations keeps what StepKeepsMaps says; every run whose removals are safe keeps the graph well formed |
| `Graphs.RemoveLeavesDanglingEdge` | upstream/internal/dag/dag.go:80-98 | a run of four operations after which an edge leads to a node that is gone, although the comment says Remove removes it |
| `Graphs.Graph.Nodes` | upstream/internal/dag/dag.go:141-147 | all nodes, each once, in any order |
| `Graphs.Graph.Edges` | upstream/internal/dag/dag.go:150-158 | exactly the edges of the graph |
| `Graphs.Graph.Dependants` | upstream/internal/dag/dag.go:162-169 | exactly the sources of edges to the node, each once |
| `Graphs.Graph.Dependencies` | upstream/internal/dag/dag.go:173-180 | exactly the targets of edges from the node, each once |
| `Graphs.Graph.Roots` | upstream/internal/dag/dag.go:184-194 | exactly the nodes without incoming edges, each once |
| `Graphs.Graph.Leaves` | upstream/internal/dag/dag.go:198-208 | exactly the nodes without outgoing edges, each once |
| `Graphs.Graph.Clone` | upstream/internal/dag/dag.go:211-230 | a new graph that holds the same and whose sets are all new objects, so none is shared with the original |
| `Graphs.ApplyToClone` | upstream/internal/dag/dag.go:211-230 | after any in-place operations on a clone the original is still valid and its maps and sets hold what they held |
| `Graphs.ApplyAfterClone` | upstream/internal/dag/dag.go:211-230 | after any in-place operations on the original the clone still holds what the original held when it was cloned |
| `Tarjans.VisitKeeps` | upstream/internal/dag/tarjan.go:90-95 | numbering and pushing a node keeps the invariant of the search (stack and finished components split the visited nodes, active nodes reach all above them, every stacked node reaches an active one) |
| `Tarjans.EmitKeeps` | upstream/internal/dag/tarjan.go:76-86 | what lies above a root on the stack is one class of mutual reachability, and popping it keeps the invariant |
| `Tarjans.FinishKeeps` | upstream/internal/dag/tarjan.go:59-76 | a node whose low link points below itself can end its call and stay on the stack |
| `Tarjans.Tarjan.Visit` | upstream/internal/dag/tarjan.go:90-95 | the node gets the next number as its number and its low link and is pushed |
| `Tarjans.Tarjan.Pop` | upstream/internal/dag/tarjan.go:98-106 | takes the last node off the stack |
| `Tarjans.Tarjan.PopComponent` | upstream/internal/dag/tarjan.go:76-86 | the pop loop takes exactly the nodes from the root up, each once |
| `Tarjans.Tarjan.Examine` | upstream/internal/dag/tarjan.go:63-73 | examining one successor keeps the low link equal to the lowest stacked number known to be reached |
| `Tarjans.Tarjan.Connect` | upstream/internal/dag/tarjan.go:59-87 | a call visits what it can reach anew, emits all components that are complete, keeps the invariant, and terminates |
| `Tarjans.StronglyConnectedComponents` | upstream/internal/dag/tarjan.go:7-21 | for every iteration order the result partitions the nodes into the classes of mutual reachability, and no edge or path leads from an earlier component to a later one; for any graph operations can make, dangling targets counted as nodes |
| `Tarjans.StronglyConnectedComponentsOrdered` | upstream/internal/dag/tarjan.go:26-44 | the same partition of everything the named nodes reach; the comment speaks of the named nodes only |
| `Validation.CyclicComponents` | upstream/internal/dag/ops.go:11-33 | a node lies on a cycle exactly if its component has another node or it has an edge to itself |
| `Validation.Validate` | upstream/internal/dag/ops.go:11-33 | nil exactly if the graph has no directed cycle; the nodes blamed are exactly those on cycles, each cycle error lists one whole class, each self-reference is one self-loop; also with dangling edges |
| `Walks.Walk` | upstream/internal/dag/walk.go:12-42 | calls fn at most once on a node, only on nodes reached from start, each after one that leads to it, and on all of those unless fn fails |
| `Walks.Release` | upstream/internal/dag/walk.go:87-103 | the counters of remaining dependencies equal the numbers of unvisited out-neighbours again, and exactly the nodes freed just now are queued |
| `Walks.WalkTopological` | upstream/internal/dag/walk.go:60-107 | calls fn only on start nodes and on nodes all of whose out-neighbours were called before, and on every such node unless fn fails, with any list of start nodes |
| `Walks.NoCycleBelow` | upstream/internal/dag/walk.go:60-107 | what a called node reaches was called no later, and lies on no cycle |
| `Walks.WalkFromLeaves` | upstream/internal/dag/walk.go:60-107 | calls closed under that rule and started from the leaves are exactly the nodes from which no cycle is reachable, out-neighbours first |
| `Walks.WalkLeaves` | upstream/internal/dag/walk.go:54-107 | started from Leaves with a callback that never fails: exactly the nodes that reach no cycle, each once, each after its out-neighbours; all nodes if the graph is acyclic |
| `WeakComponents.Neighbors` | upstream/internal/dag/weak.go:64-73 | exactly the nodes joined to the node by an edge in either direction |
| `WeakComponents.Search` | upstream/internal/dag/weak.go:34-55 | the breadth-first search finds exactly the connectivity class of its start, and keeps those nodes of it that the filter keeps |
| `WeakComponents.WeaklyConnectedComponents` | upstream/internal/dag/weak.go:23-61 | with any filter the result is the classes of connectivity ignoring direction, cut down to the filter, empty ones dropped, none twice |
| `WeakComponents.AllFilterPartitions` | upstream/internal/dag/weak.go:5-61 | with the filter that keeps everything the components partition the nodes by connectivity |
| `WeakComponents.FilterCuts` | upstream/internal/dag/weak.go:23-61 | every component without a filter appears cut down to the filter exactly if the filter keeps one of its nodes |
| `Lines.File.AddLine` | upstream/syntax/token/file.go:111-116 | appends a line start that is past the last, ignores any other, keeps them increasing |
| `Lines.File.SearchInts` | upstream/syntax/token/file.go:140-142 | the bisection finds the last line start not after the offset |
| `Lines.File.PositionFor` | upstream/syntax/token/file.go:119-138 | line and column of a position, counted from 1; line 0 for no position |
| `Lines.LineOfOffset` | upstream/syntax/token/file.go:119-138 | with the line starts of everything scanned, the line of a passed offset is 1 plus the newlines before it |
| `Scanners.Scanner.Next` | upstream/syntax/scanner/scanner.go:129-159 | moves one character on, records the line start after a newline, and reports exactly NUL and a late byte order mark |
| `Scanners.Passed` | upstream/syntax/scanner/scanner.go:385-432 | passing over ASCII letters and digits without next misses no newline and no error, so it ends in the state next would reach |
| `Scanners.Scanner.ScanIdentifier` | upstream/syntax/scanner/scanner.go:385-432 | both paths end in the same full state (character, offsets, lines, errors) after exactly the letters and digits |
| `Scanners.Scanner.ScanNumber` | upstream/syntax/scanner/scanner.go:434-466 | integer part, fraction and exponent as the longest match, with the kind, the text and an error for an exponent without digits |
| `Scanners.Scanner.ScanEscape` | upstream/syntax/scanner/scanner.go:502-553 | consumes one escape sequence; an error exactly for an unknown one, a bad digit or a code point out of range |
| `Scanners.Scanner.ScanString` | upstream/syntax/scanner/scanner.go:477-498 | ends at the first unescaped quote, or at a newline or the end of the file with an error |
| `Scanners.Scanner.ScanComment` | upstream/syntax/scanner/scanner.go:565-628 | a line comment up to its newline, a block comment up to its end or with an error |
| `Scanners.Scanner.LookAhead` | upstream/syntax/scanner/scanner.go:645-691 | true exactly if from the first slash on only blanks and comments stand up to a newline or the end of the file, or one of these comments is a line comment or a block comment that holds a newline |
| `Scanners.Scanner.FindLineEnd` | upstream/syntax/scanner/scanner.go:645-691 | answers exactly that and restores character and both offsets |
| `Scanners.Scanner.Scan` | upstream/syntax/scanner/scanner.go:197-357 | without error, one call takes the next token off the tokens of the text without its comments (a line comment is nothing, a block comment a newline or a blank), and that is the longest token of the lexical grammar at its place, with its kind and text; position, terminator flag and error status as in the one-step function; terminates because 2*(bytes left)+insertTerm drops |
| `Comments.RunsIs` | upstream/syntax/scanner/scanner.go:645-691 | the scanner looks ahead to the end of the line exactly if only blanks and comments stand before it, told by where these are in the text |
| `Comments.CommentsEndLine` | upstream/syntax/scanner/scanner.go:292-314 | where it does, the text without comments has a terminator that is lost by reading on; where it does not, a comment leaves the tokens as they are |
| `Comments.TerminatorBeforeComment` | upstream/syntax/scanner/scanner.go:292-304 | a comment after an operand is a terminator exactly if the text without comments has one there |
| `Comments.LineEndFirst` | upstream/syntax/scanner/scanner.go:578-594 | a line comment ends before the first newline or at the end of the file |
| `Comments.BlockEndFirst` | upstream/syntax/scanner/scanner.go:596-611 | a block comment ends after the first closing mark, and is an error exactly if there is none |
| `Formatting.FileWithoutComments` | upstream/syntax/scanner/scanner.go:197-357 | replacing every line comment by nothing and every block comment by a newline if it holds one, else by a blank, leaves the tokens of a file that scans without error as they are; a byte order mark at the start is passed over |
| `Literals.NumberLongest` | upstream/syntax/scanner/scanner.go:434-466 | what is taken for a number is one, whole or with a point or an exponent, exactly if it is no error, and no number there is longer |
| `Literals.EscapeMeans` | upstream/syntax/scanner/scanner.go:502-553 | an escape sequence is accepted exactly if it stands for a character: a letter from the table, three octal digits below 256, or x, u, U with 2, 4, 8 hexadecimal digits of a code point that is no surrogate |
| `Literals.QuotedMeans` | upstream/syntax/scanner/scanner.go:477-498 | a string in double quotes is accepted exactly if every part of it stands for a character, and ends there |
| `Literals.RawMeans` | upstream/syntax/scanner/scanner.go:477-498 | a string in backquotes ends with the next backquote |
| `Literals.TokenLongest` | upstream/syntax/scanner/scanner.go:15-57 | what the scanner takes is an error exactly if it is no token of the lexical grammar; if it is one, no longer token and no token of another kind stands there |
| `Literals.QuoteSpells` | upstream/syntax/printer/walker.go:268-273 | a text quoted as %q quotes it is a string literal whose parts stand for exactly the characters of the text |
| `Literals.SpellsOnce` | upstream/syntax/scanner/scanner.go:477-553 | a string literal stands for one text only |
| `Scanners.Scanner.LineOfScanned` | upstream/syntax/scanner/scanner.go:129-159 | the recorded lines give 1 plus the newlines before it as the line of any position passed |
| `Scanners.IsValidIdentifier` | upstream/syntax/scanner/identifier.go:11-15 | true exactly for a letter followed by letters and digits that is no keyword |
| `Lexemes.LexemeScans` | upstream/syntax/scanner/scanner.go:197-357 | a text that scans alone as an identifier or literal scans the same inside any text that does not continue it |
| `Lexemes.OperatorScans` | upstream/syntax/scanner/scanner.go:257-357 | the text of an operator scans as that operator wherever what follows cannot extend it |
| `Lexemes.ScannedLexeme` | upstream/syntax/scanner/scanner.go:197-357 | every identifier or literal scanned without error is a text that scans alone as the same token |
| `Lexemes.QuoteLexeme` | upstream/syntax/printer/walker.go:104-111 | a text quoted as %q quotes it scans as one string literal, whatever it holds |
| `Rescans.FinishSpaces` | upstream/syntax/printer/printer.go:501-520 | whitespace still pending when the file ends changes no token |
| `Quoting.QuoteKeeps` | upstream/syntax/printer/walker.go:268-273 | quoting leaves a text as it is exactly if every character of it is printable and neither a quote nor a backslash |
| `Documented.Documents` | upstream/syntax/parser/internal.go:383-559 | a tree is one of the grammar the parser is proved against exactly if it is an OrExpr of the documented grammar, which has one rule each for OR, AND, comparisons, + and -, the three of *, and ^, naming the operators |
| `Documented.OperDocuments` | upstream/syntax/parser/internal.go:467-559 | the same for accesses, indexes, calls and primary expressions |
| `Documented.DocumentsStmt` | upstream/syntax/parser/internal.go:235-317 | the same for statements |
| `Documented.FileDocumented` | upstream/syntax/parser/internal.go:163-171 | a token stream is accepted exactly if the documented grammar derives it, and only one tree does |
| `Documented.Precedences` | upstream/syntax/token/token.go:150-167 | which operators the precedence table puts on which rule of that grammar |
| `Documented.TwoOperators` | upstream/syntax/parser/internal.go:404-435 | for all operands l, m, r and any two left-associative operators, l op m op' r is read with op' first exactly if op' is of a tighter group (named by their operators), and from the left otherwise |
| `Documented.TwoPowers` | upstream/syntax/parser/internal.go:441-457 | l ^ m ^ r is read as l ^ (m ^ r) |
| `Soundness.BinOpSound` | upstream/syntax/parser/internal.go:404-435 | what is read with a minimum precedence is a tree of the grammar of at least it, left operands of equal precedence nested leftwards, whose tokens are those consumed; Documents says which operators that means |
| `Soundness.PowSound` | upstream/syntax/parser/internal.go:441-457 | the right operand of ^ is again a power expression, so ^ nests rightwards |
| `Soundness.UnarySound` | upstream/syntax/parser/internal.go:467-559 | prefix operators bind tighter than binary ones and looser than access, index and call |
| `Soundness.BodySound` | upstream/syntax/parser/internal.go:177-198 | a body read is statements with terminators between them whose tokens are exactly those consumed |
| `Soundness.FileSound` | upstream/syntax/parser/internal.go:163-171 | every accepted token stream is derived by the grammar: its tree written out is the stream |
| `Completeness.ExpressionComplete` | upstream/syntax/parser/internal.go:383-559 | the tokens of any tree of the grammar, before a token that cannot continue it, are read as that tree; rejected exactly if a comma stands in an empty list |
| `Completeness.BinOpComplete` | upstream/syntax/parser/internal.go:404-435 | the same for each minimum precedence: precedence and associativity decide one tree; TwoOperators says which |
| `Completeness.PowComplete` | upstream/syntax/parser/internal.go:441-457 | a right-nested power is read back as it is |
| `Completeness.ListComplete` | upstream/syntax/parser/internal.go:649-665 | element lists with or without a trailing comma are read back, and a comma in an empty list is rejected |
| `Completeness.FieldsComplete` | upstream/syntax/parser/internal.go:670-714 | the same for object fields |
| `CompletenessStmts.StatementComplete` | upstream/syntax/parser/internal.go:240-364 | attributes and blocks with any header are read back |
| `CompletenessStmts.BodyComplete` | upstream/syntax/parser/internal.go:177-198 | bodies with or without a last terminator are read back |
| `CompletenessStmts.FileComplete` | upstream/syntax/parser/internal.go:163-171 | with FileSound: a stream is accepted if and only if the grammar derives it, and as that one tree |
| `Parsers.Parser.Next` | upstream/syntax/parser/internal.go:61-67 | moves one token on and stays at the end of the file |
| `Parsers.Parser.AddError` | upstream/syntax/parser/internal.go:144-158 | counts an error unless the last one counted was on the same line |
| `Parsers.Parser.Expect` | upstream/syntax/parser/internal.go:135-142 | consumes one token and records an error exactly if it is of another kind |
| `Parsers.Parser.AdvanceAny` | upstream/syntax/parser/internal.go:113-131 | stops at the first token of one of the kinds, or at the end |
| `Parsers.Parser.ConsumeStatement` | upstream/syntax/parser/internal.go:204-233 | stops at the first terminator outside the brackets opened on the way, or at the end |
| `Parsers.Parser.ParseBinOp` | upstream/syntax/parser/internal.go:404-435 | starting without errors: ends without any exactly if the grammar reads an expression of the precedence there, and then returns its tree with positions and stands after it; the precedences are those of Documents and TwoOperators |
| `Parsers.Parser.ParsePowExpr` | upstream/syntax/parser/internal.go:441-457 | the same for power expressions |
| `Parsers.Parser.ParseUnaryExpr` | upstream/syntax/parser/internal.go:467-559 | the same for unary expressions with their accesses, indexes and calls |
| `Parsers.Parser.ParsePrimaryExpr` | upstream/syntax/parser/internal.go:579-636 | the same for primary expressions |
| `Parsers.Parser.ParseExpressionList` | upstream/syntax/parser/internal.go:649-665 | the same for lists up to a closing bracket |
| `Parsers.Parser.ParseFieldList` | upstream/syntax/parser/internal.go:670-686 | the same for object fields |
| `Parsers.Parser.ParseField` | upstream/syntax/parser/internal.go:691-714 | the same for one field; a quoted name keeps its raw text |
| `Parsers.Parser.ParseBlockName` | upstream/syntax/parser/internal.go:313-364 | the same for block names and labels |
| `Parsers.Parser.ParseStatement` | upstream/syntax/parser/internal.go:240-308 | the same for statements |
| `Parsers.Parser.ParseBody` | upstream/syntax/parser/internal.go:177-198 | the same for bodies; the loop terminates on every input because (tokens left, rank) drops |
| `Parsers.Parser.ParseFile` | upstream/syntax/parser/internal.go:163-171 | no diagnostics exactly if the documented grammar (Documented) derives the tokens, and then the tree is the one it derives, with the positions of its tokens; terminates with error recovery on every token stream |
| `Printers.Printer.WriteSpace` | upstream/syntax/printer/printer.go:168-254 | buffers whitespace so that the text written so far reads as before plus that whitespace |
| `Printers.Printer.WriteToken` | upstream/syntax/printer/printer.go:168-280 | writes a token after the pending whitespace, with a space where it could fuse with the last token |
| `Printers.Printer.WriteWord` | upstream/syntax/printer/printer.go:168-280 | writes the text of identifiers and literals after the pending whitespace |
| `Printers.Printer.WriteWhitespace` | upstream/syntax/printer/printer.go:501-520 | moves pending whitespace to the output without changing how it reads |
| `Printers.Printer.WriteString` | upstream/syntax/printer/printer.go:407-460 | appends text, with the indentation where a line starts |
| `Spans.Span` | upstream/syntax/ast/ast.go:268-367 | an expression built from tokens starts where its first token starts and ends with the last character of its last token |
| `Spans.BinaryMarks` | upstream/syntax/parser/internal.go:404-435 | in a binary expression the operator position is that of the operator token, the left operand ends right before it and the right one starts right after it |
| `Spans.CallMarks` | upstream/syntax/parser/internal.go:508-522 | the parentheses of a call are those tokens, and the callee ends right before the first |
| `Spans.ElementRead` | upstream/syntax/parser/internal.go:649-665 | every element of a list is itself read from the tokens, at its own place |
| `Spans.BlockMarks` | upstream/syntax/parser/internal.go:281-293 | name, label and braces of a block have the positions of their tokens, and the block ends with the closing one |
| `Spans.AttributeMarks` | upstream/syntax/parser/internal.go:252-279 | an attribute starts with its name, its value after the equals sign, and ends with the last token of the value |
| `Spans.ArrayComma` | upstream/syntax/printer/walker.go:224-237 | a comma is written after the last element exactly if the closing bracket is on another line than the last character of the token that ends that element |
| `Spans.CallComma` | upstream/syntax/printer/walker.go:326-333 | the same for calls, where the opening parenthesis counts if there is no argument |
| `Spans.ObjectComma` | upstream/syntax/printer/walker.go:287-293 | the same for objects, where it is the line of the last field name that counts |
| `Walkers.Walker.WalkExpr` | upstream/syntax/printer/walker.go:136-183 | writes exactly the tokens of the canonical tree of the expression, fusing none and ending no statement on the way |
| `Walkers.Walker.WalkArrayExpr` | upstream/syntax/printer/walker.go:185-237 | the same for arrays, with a comma after the last element exactly if the bracket closes on another line than it ends; Span and ArrayComma say where that is |
| `Walkers.Walker.WalkObjectExpr` | upstream/syntax/printer/walker.go:239-294 | the same for objects, where the line of the last field is taken from its name |
| `Walkers.Walker.WalkCallExpr` | upstream/syntax/printer/walker.go:296-333 | the same for calls, which also write the comma when there is no argument; CallComma says when |
| `Walkers.Walker.WalkStmts` | upstream/syntax/printer/walker.go:39-75 | the statements in order, each ended by exactly one terminator |
| `Walkers.Walker.WalkBlockStmt` | upstream/syntax/printer/walker.go:100-134 | name, label if not empty, quoted, and body; the indentation returns to its level |
| `Walkers.Walker.WalkFile` | upstream/syntax/printer/walker.go:34-37 | the whole output reads as the tokens of the canonical tree of the file |
| `Rescans.LayoutScans` | upstream/syntax/printer/printer.go:216-280 | the text of any output, with any further blanks in its gaps, scans as it reads |
| `Rescans.OutputScans` | upstream/syntax/printer/printer.go:216-280 | printed tokens never fuse and no terminator is inserted: rescanning the printed text gives exactly the tokens written, without error |
| `RoundTrips.CanonCommas` | upstream/syntax/printer/walker.go:296-333 | the canonical tree of an expression has no comma in an empty list if and only if no call in it lacks arguments and has its parentheses on different lines |
| `RoundTrips.RequoteBodySame` | upstream/syntax/printer/walker.go:268-273 | printing keeps all field names if and only if no quoted one holds a character %q would escape |
| `RoundTrips.LabelComesBack` | upstream/syntax/printer/walker.go:104-111 | a label comes back unchanged |
| `RoundTrips.BuildCanonBody` | upstream/syntax/printer/walker.go:39-333 | building the canonical tree gives the tree that was printed, up to positions and requoted field names |
| `Likeness.CanonAlikeBody` | upstream/syntax/printer/walker.go:39-333 | the canonical tree of a parsed file differs from the file at most in trailing commas, terminators, empty labels and field-name quotes; every parsed tree can be walked |
| `PrintedFiles.PrintAfterParse` | upstream/syntax/printer/walker.go:34-333 | for every token stream parsed without a diagnostic the printed tokens are the input up to those four |
| `PrintedFiles.ParseAfterPrint` | upstream/syntax/parser/internal.go:163-714 | parsing the printed tokens succeeds if and only if no call without arguments has split parentheses, gives the same tree up to positions with names requoted, and the very same if and only if no field name needs an escape |
| `PrintedFiles.SplitCallRejected` | upstream/syntax/printer/walker.go:322-332 | a file with a split empty call that parses and whose printed tokens do not |
| `PrintedFiles.EscapedNameChanges` | upstream/syntax/printer/walker.go:268-273 | a file with an escape in a field name whose printed form parses to another tree |
| `Formatting.Tokenize` | upstream/syntax/scanner/scanner.go:102-357 | scanning a whole file gives its tokens, its line starts, and whether there was any error |
| `Formatting.TokensLexed` | upstream/syntax/scanner/scanner.go:197-357 | whatever the file holds, the parser gets a token stream that ends with EOF and nowhere before |
| `Formatting.Format` | upstream/internal/alloycli/cmd_fmt.go:101-120 | scan, parse and print: fails exactly if there is a diagnostic, and otherwise prints the canonical tree of the file, whose trailing commas are those of ArrayComma, CallComma and ObjectComma |
| `Formatting.TextScans` | upstream/syntax/printer/printer.go:216-280 | the text printed has no illegal character and its tokens are those written |
| `Formatting.FormatComesBack` | upstream/internal/alloycli/cmd_fmt.go:101-120 | from text to text: a formatted file, with the newline added at its end, scans cleanly, is accepted if and only if no empty call is split, and then has the same tree up to positions and requoted names |
| `HashMaps.HashMap.Add` | upstream/internal/runner/hash_map.go:20-33 | adds the task exactly if no equal one is there, which otherwise stays |
| `HashMaps.HashMap.Has` | upstream/internal/runner/hash_map.go:36-47 | whether an equal task is there, hash collisions or not |
| `HashMaps.HashMap.Delete` | upstream/internal/runner/hash_map.go:51-72 | removes exactly the equal task and tells whether there was one |
| `HashMaps.HashMap.Iterate` | upstream/internal/runner/hash_map.go:79-96 | every task once |
| `HashMaps.AddKeeps` | upstream/internal/runner/hash_map.go:20-33 | appending to a bucket adds one class to the map from classes to tasks and no other |
| `HashMaps.DeleteKeeps` | upstream/internal/runner/hash_map.go:51-72 | filtering a bucket removes one class and no other |
| `Runners.NewTasks` | upstream/internal/runner/runner.go:107-113 | of equal tasks the first is kept |
| `Runners.WantedFirst` | upstream/internal/runner/runner.go:107-113 | the task a class is launched with is the first of its class in the argument |
| `Runners.StepKeeps` | upstream/internal/runner/runner.go:106-205 | every step of caller, iterator, stop goroutines and workers keeps the invariant: counters equal what they count, one worker a class, no running worker forgotten, what each phase has done |
| `Runners.RunKeeps` | upstream/internal/runner/runner.go:106-205 | the invariant holds in every reachable state |
| `Runners.ApplyTasksApplies` | upstream/internal/runner/runner.go:98-176 | in every interleaving, when ApplyTasks returns there is exactly one worker for each class of the tasks, surviving classes keep theirs, new ones have the first task, removed workers were cancelled and have exited unless the context was cancelled, and no other worker runs uncancelled |
| `Runners.StopStops` | upstream/internal/runner/runner.go:202-205 | when Stop returns every worker ever started is gone and no call is served any more |
| `Runners.NoDeadlock` | upstream/internal/runner/runner.go:106-205 | while a call is under way some forced step can be taken, if cancelled workers exit |
| `Runners.StepDescends` | upstream/internal/runner/runner.go:106-205 | every step lowers a measure, so every call ends |
| `Targets.Get` | upstream/internal/component/discovery/target.go:157-164 | the lookup in two layers is the lookup in the merged labels |
| `Targets.ForEachLabel` | upstream/internal/component/discovery/target.go:124-144 | finishes exactly if f holds of every merged label, and then visited each once |
| `Targets.NewTarget` | upstream/internal/component/discovery/target.go:58-76 | size is the number of merged labels |
| `Targets.LabelSetOf` | upstream/internal/component/discovery/target.go:168-177 | the merged labels |
| `Targets.EqualsTarget` | upstream/internal/component/discovery/target.go:290-302 | true exactly if the merged labels are equal, however they are split |
| `TargetHashes.HashLabelsInOrder` | upstream/internal/component/discovery/target.go:345-377 | the bytes hashed are those of all labels in order, on either side of the 1024-byte switch |
| `TargetHashes.LessIs` | upstream/internal/component/discovery/target.go:316-328 | names are in the order of their bytes: the one that goes on where the other ends, or has the greater byte where they first differ, is later |
| `TargetHashes.OneOrder` | upstream/internal/component/discovery/target.go:316-328 | a set of names has one ascending order, whatever order it was collected in |
| `TargetHashes.HashLabelsWithPredicate` | upstream/internal/component/discovery/target.go:316-328 | the bytes hashed are those of exactly the selected merged labels in ascending order |
| `TargetHashes.BytesTell` | upstream/internal/component/discovery/target.go:345-377 | without separators in names and values the bytes tell the labels |
| `TargetHashes.FeedsDecide` | upstream/internal/component/discovery/target.go:304-328 | equal labels feed equal bytes however they are split, and, without separators in them, unequal labels feed unequal bytes |
| `TargetBuilders.TargetBuilder.FromLabelSets` | upstream/internal/component/discovery/target_builder.go:37-62 | the builder stands for the merged labels without empty values |
| `TargetBuilders.TargetBuilder.Get` | upstream/internal/component/discovery/target_builder.go:64-77 | the value in that one map, or empty |
| `TargetBuilders.TargetBuilder.Range` | upstream/internal/component/discovery/target_builder.go:79-104 | every label of that map once, and nothing else |
| `TargetBuilders.TargetBuilder.Set` | upstream/internal/component/discovery/target_builder.go:106-112 | sets one label of that map, or removes it if the value is empty |
| `TargetBuilders.TargetBuilder.Del` | upstream/internal/component/discovery/target_builder.go:114-120 | removes exactly the named labels |
| `TargetBuilders.TargetBuilder.MergeWith` | upstream/internal/component/discovery/target_builder.go:122-129 | sets all labels of a target over the map, empty ones removed |
| `TargetBuilders.TargetBuilder.Target` | upstream/internal/component/discovery/target_builder.go:131-187 | the target built has exactly that map as its merged labels, with no empty value and the right size |
| `TargetGroups.SourcesTell` | upstream/internal/component/discovery/target.go:385-430 | the sources of two fingerprints differ, and differ from that of the rest |
| `TargetGroups.ByHashAll` | upstream/internal/component/discovery/target.go:385-400 | counted by fingerprint every target counts once, for any fingerprint function |
| `TargetGroups.Bucketed` | upstream/internal/component/discovery/target.go:385-400 | each bucket holds exactly the targets of its fingerprint in their order |
| `TargetGroups.GroupOf` | upstream/internal/component/discovery/target.go:401-420 | the own labels of exactly the targets that have the first one's group labels, in their order, and the merged labels of exactly the others; nothing is lost |
| `TargetGroups.ToTargetGroups` | upstream/internal/component/discovery/target.go:385-430 | for every hash function, collisions included, the multiset of merged label sets over all groups is that of the targets, no group is empty and sources are distinct; one part group for each fingerprint in ascending order, and a rest group exactly if two targets of one fingerprint differ in group labels |
| `TargetGroups.PartWithoutCollision` | upstream/internal/component/discovery/target.go:401-420 | without such a collision a part group has the group labels of all its targets and exactly their own labels |
| `TargetGroups.LeftoversCollide` | upstream/internal/component/discovery/target.go:405-428 | something is left over for the rest group exactly if two targets share a fingerprint and differ in group labels |
| `TargetGroups.ToAlloyTargets` | upstream/internal/component/discovery/discovery.go:224-237 | in any order of the cache the targets returned have exactly the merged label sets of its groups, and each the labels of a group and one of its own label sets |
| `TargetGroups.TotalSame` | upstream/internal/component/discovery/discovery.go:224-237 | the order in which the cache is ranged over does not change them |
| `TargetGroups.GroupsGiveBack` | upstream/internal/component/discovery/discovery.go:224-237 | taking targets out of the groups they were put in gives the same multiset of label sets back |
| `DistributedTargets.UniqueKeys` | upstream/internal/component/discovery/distributed_targets.go:28-62 | deduplication keeps one target for every key |
| `DistributedTargets.Distributed.constructor` | upstream/internal/component/discovery/distributed_targets.go:28-83 | without clustering all deduplicated targets are local and no key is remote; with it, a key is local exactly if the cluster is ready and the lookup fails, names no owner, or names this node first, and remote otherwise; no key twice |
| `DistributedTargets.UniqueFirst` | upstream/internal/component/discovery/distributed_targets.go:46-61 | of the targets with one key the first is kept |
| `DistributedTargets.TakenExactly` | upstream/internal/component/discovery/distributed_targets.go:63-75 | the same condition for the functions that the constructor computes |
| `DistributedTargets.DisabledTakesAll` | upstream/internal/component/discovery/distributed_targets.go:120-134 | a node of no cluster takes every key |
| `DistributedTargets.Partition` | upstream/internal/component/discovery/distributed_targets.go:28-83 | local and remote keys split the keys of all targets |
| `DistributedTargets.Distributed.TargetCount` | upstream/internal/component/discovery/distributed_targets.go:90-92 | the number of different keys |
| `DistributedTargets.Distributed.MovedToRemoteInstance` | upstream/internal/component/discovery/distributed_targets.go:98-110 | what Moved computes of the previous local targets and the new remote keys; none without a previous distribution |
| `DistributedTargets.MovedExactly` | upstream/internal/component/discovery/distributed_targets.go:98-110 | those are exactly the previous local targets whose key is now remote, each once |
| `DistributedTargets.OnePeer` | upstream/internal/component/discovery/distributed_targets.go:28-83 | if all ready peers agree on non-empty owners, every key is local on exactly its first owner and remote on all others |
| `DistributedTargets.NotReady` | upstream/internal/component/discovery/distributed_targets.go:36-47 | a node whose cluster is not ready takes nothing |
| `ReservedKeywords.RingPush` | upstream/internal/component/database_observability/lexer.go:78-83 | writing at the head keeps the ring equal to the last 32 values |
| `ReservedKeywords.GreedyEmbeds` | upstream/internal/component/database_observability/lexer.go:54-71 | what the greedy walk matches is a subsequence in order |
| `ReservedKeywords.GreedyLeads` | upstream/internal/component/database_observability/lexer.go:54-71 | no embedding is ever ahead of the greedy walk |
| `ReservedKeywords.GreedyFinds` | upstream/internal/component/database_observability/lexer.go:54-71 | greedy matching succeeds if and only if the prefixes are a subsequence |
| `ReservedKeywords.Lookback` | upstream/internal/component/database_observability/lexer.go:54-71 | the walk over the ring matches all prefixes if and only if they are a subsequence, newest first, of the remembered values |
| `ReservedKeywords.ContainsReservedKeywords` | upstream/internal/component/database_observability/lexer.go:28-86 | true exactly if before the first stop some command, keyword or identifier is reserved and its list is empty or no subsequence, newest first, of the up to 32 such tokens before it; an error exactly if none is found and the lexer stopped with one |

## Left out

- Parsers.Parser.ParseFile: the tree returned together with diagnostics is not described, only that there are diagnostics and that parsing ends.
- Parsers.Parser.AddError: the message text is not modelled.
- Scanners.Scanner.Scan: of diagnostics only whether there was one is kept, not their number, order, position or text.
- Walkers.Walker.WalkFile: where lines break, which blank lines stand between statements and how far they are indented is not stated, beyond that every statement ends its line and indentation returns to its level.
- Formatting.FileWithoutComments: speaks of files that scan without error; the tokens of other files are reported as errors anyway.
- Scanners.Scanner.ScanComment: carriage returns stay in the text of a comment; the original strips them.
- Walks.WalkLeaves: graphs on which Remove left a dangling edge are not covered; there the nodes above the edge are never called.
- Runners.ApplyTasksApplies: calls are serial and the locks of single map operations are taken as atomic steps; a worker's Run is only started, cancelled and exiting.
- DistributedTargets.OnePeer: how the cluster chooses owners is not modelled; the lookup is any function of the key.
- ReservedKeywords.ContainsReservedKeywords: the SQL lexer gives any token sequence, and upper-casing and case folding are any functions.
- Comments in configuration files: collecting, attaching and printing them. The scanner skips them; the printer model writes none.
- The byte layout made by text/tabwriter and trimmer.go: the layout theorems hold for any further blanks in the gaps. A raw string that holds tabs or newlines can be changed by it, which is not modelled.
- UTF-8 decoding: the scanner works on characters. Letters, digits and printable characters above ASCII are any predicates, with the byte order mark in none of them.
- Secrets redacted by the printer, the scanner mode without terminators, and SanitizeIdentifier.
- Parsing of a single expression as the entry point, which ParseExpression covers without its check for trailing tokens.
- Message texts, positions of diagnostics and ANSI rendering.
- Callbacks of ForEachLabel are functions without effects.
- xxhash: only the bytes fed to it are described; Prometheus types and label validation are left to their libraries.
- ConvertFrom and ConvertInto of targets, labels of the meta and reserved kind, and runner Tasks and Workers, which would only add easy members.
- Capacity hints, sync.Pool and logging.
- WalkIncomingNodes, which is one loop over the incoming edges of a node.
- syntax/vm, syntax/typecheck, the validator, the component runtime and everything around these packages.
