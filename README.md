# Chunking and retrieval core of the RAG workshop, in Dafny

This project models the two pieces of the workshop's retrieval-augmented
generation pipeline that hold real logic, and proves what they promise.

**The chunking engine** (`rag/utils.py`) turns documents into chunk records:

- `chunk_simple` packs sentences greedily into chunks under a token budget (module `TokenPacker`);
- `chunk_by_headings`, `extract_text_from_node` and `chunk_markdown` cut a markdown syntax tree into heading sections (modules `Syntax`, `MarkdownChunker`);
- `chunk_pdf` cuts PDF text into sections at marker lines, keeps a section with a dollar amount whole and packs the others by sentence (module `PdfChunker`);
- the Python code chunker walks a syntax tree and emits class, function and method records, each with a context of the imports and module variables it uses and its enclosing class or function: `collect_imports`, `build_import_map`, `collect_module_variables` and `collect_identifiers*` (module `CodeScan`), `process_decorated_definition`, `process_function`, `process_class` and `process_root` (module `CodeChunker`, with the derived properties in `CodeChunkerFacts`);
- `convert_chunks_to_strs` renders the records and `chunk_source_code` filters and packs them (module `CodeRender`);
- `chunk_dataset` builds one record per chunk with `doc_id`, `chunk_id` and `chunk_number`, and `format_doc` renders a record as text (module `Dataset`).

**The retrieval orchestration** (`rag/retriever.py`):

- `batch_embed` sends texts to the embedding service in batches (module `Embedding`);
- the TF-IDF, BM25, dense and vector-store search engines keep the documents they were fitted on and answer searches over them (module `Engines`);
- `Reranker.invoke` writes the reranking service's scores into the candidates, `RetrieverWithReranker.invoke` and `HybridRetrieverWithReranker.invoke` derive how many candidates to fetch and keep, and the hybrid retriever merges its two engines' candidates by `chunk_id` (module `Retrieval`).

Python values are modelled as follows. Strings are `seq<char>`. Dicts are association lists in insertion order, where assigning to a present key keeps its position (module `Dicts`). The Python string builtins the code relies on are written out in `Common`: `strip`, `splitlines`, `split`, `join`, slicing and `str(n)` in full, and `upper` and `lower` for the ASCII letters only. Dict values (`Dicts.Value`) are strings, integers, reals, None and nested dicts; booleans and lists are not among them. Raising an exception is the `Err` case of a `Result`.

Some collaborators are code this model does not see. They become function-typed parameters: the sentence splitter, the tokenizer, `make_id`, the tree-sitter parsers, the notebook conversion, `convert_contents_to_text`, the embedding and reranking services, the vector store's query and the ranking of each search engine. Python iterates a set in an order of its own; the methods that loop over sets pick elements in an unspecified order, and their specifications speak of the lists they build as sets.

Classes with fields that change become Dafny classes: the search engines, and the records the reranker writes into. Loops become methods with loop invariants, proved against specification functions, and the properties are lemmas about those functions.

In three places the source's own comments or branches promise more than the code does, and the model follows the code:

- In `batch_embed` (`rag/retriever.py:186-191`), the message "waiting 60 seconds before retrying" and the comment "Retry this batch" promise a retry. The `i -= batch_size` before `continue` does not change the `range` iterator, so the rate-limited batch is skipped.
- In `RetrieverWithReranker.invoke` (`rag/retriever.py:431-440`), the last branch sets the defaults (10, 5). When `top_k` and `top_n` are both None, the `top_k == top_n` branch runs first and `None * 2` raises TypeError, so the defaults are never reached in that case.
- `chunk_pdf` as written never opens a section at an "Item" line (see Findings). The PDF chunker takes the line test as a parameter; it is proved for the test as written and for the intended test, and `chunk_dataset` takes it from its collaborators.

## Model

| member | source | states |
|---|---|---|
| Common.Split | rag/utils.py:457 | str.split on one character gives at least one piece and no piece holds the separator |
| Common.JoinSplit | rag/utils.py:457-461 | joining the pieces of a split with the same character gives the string back |
| Common.LStripSpec | rag/utils.py:150 | lstrip removes exactly the leading whitespace (also at lines 162, 563, 676) |
| Common.RStripSpec | rag/utils.py:150 | rstrip removes exactly the trailing whitespace (also at lines 162, 563, 676) |
| Common.StripSpec | rag/utils.py:150 | strip returns the string without its leading and trailing whitespace, starting and ending with a non-space character (also at lines 162, 563, 676) |
| Common.SplitLines | rag/utils.py:563 | no line splitlines returns holds a line boundary (also at line 674) |
| Common.SplitLinesNonEmpty | rag/utils.py:563 | a non-empty string has at least one line (also at line 674) |
| Common.JoinSplitLines | rag/utils.py:674-685 | where "\n" is the only line boundary and the text does not end with one, joining its lines with "\n" gives the text back |
| Common.MultipleLinesIffBoundary | rag/utils.py:563 | a stripped text has more than one line exactly when it holds a line boundary |
| Common.PrefixSlice | rag/utils.py:549 | s[:n] is a prefix of s of length min(n, len(s)), counted from the end for a negative n (also at lines 618, 623) |
| Common.NatToDecimal | rag/retriever.py:332 | str(n) is a non-empty string of decimal digits |
| Common.NatToDecimalInjective | rag/retriever.py:332 | different numbers have different decimal strings |
| Common.FlattenAppend | rag/utils.py:565 | flattening two runs of blocks is flattening each and joining |
| Common.FlattenAt | rag/utils.py:565 | element i of block j sits after all the elements of the blocks before it |
| Common.FlattenLength | rag/utils.py:565 | blocks of equal lengths flatten to sequences of equal length |
| Common.JoinAppend | rag/utils.py:461 | joining two non-empty runs of strings with a separator puts the separator between their joins |
| Dicts.PutNew | rag/utils.py:727-731 | assigning a new key appends its entry at the end |
| Dicts.PutPresent | rag/retriever.py:360 | assigning a present key replaces its value where it stands (also at line 401) |
| Dicts.PutSpec | rag/utils.py:727-731 | after d[k] = v the dict keeps its keys in order (a new key last), k maps to v and every other key is unchanged |
| Dicts.RemoveGet | rag/utils.py:726 | after del d[k], k is absent and every other key maps to what it did |
| Dicts.RemoveValid | rag/utils.py:726 | removing a key keeps every key once |
| Dicts.UpdateSpec | rag/retriever.py:86 | {**d, **e} keeps the keys of d in front and maps each key of e to its value in e, every other key to its value in d (also at lines 151-152, 268-269) |
| Syntax.ExtractTextsOfGapless | rag/utils.py:137 | over children that cover their text without gaps, the extracted texts run together are the children's texts run together |
| Syntax.ExtractTextOfGapless | rag/utils.py:132-137 | when every node's children cover its text without gaps, extract_text_from_node gives back the node's own text |
| Syntax.ExtractTextsSnoc | rag/utils.py:137 | the extracted text of a run of children followed by one more node is the run's text followed by that node's |
| TokenPacker.ChunkSimple | rag/utils.py:101-125 | the loop's chunks are "".join of the token groups the greedy packer forms: a group is closed only when the next sentence would push a non-empty group over chunk_size, and a non-empty group left at the end is emitted |
| TokenPacker.PackFlatten | rag/utils.py:107-123 | packing loses and reorders no token: the groups run together are the tokens in progress followed by the tokens of every remaining sentence |
| TokenPacker.PackCount | rag/utils.py:111-123 | at most one group per remaining sentence, plus one for the group in progress |
| TokenPacker.PackBudget | rag/utils.py:111-123 | no group is empty, and a group with more than chunk_size tokens is exactly one sentence's tokens (or the group that was in progress) |
| TokenPacker.PackClose | rag/utils.py:115-118 | a sentence whose tokens would push a non-empty group over chunk_size closes that group and starts the next one with its own tokens |
| TokenPacker.PackGreedy | rag/utils.py:111-123 | the packing is greedy: a group is closed only when the following tokens would not fit into it, so no two neighbouring groups fit into chunk_size together; the first group holds the tokens in progress |
| TokenPacker.SimpleChunksLossless | rag/utils.py:101-125 | the chunks chunk_simple returns, run together, are the tokens of all sentences run together |
| TokenPacker.FlattenJoinEach | rag/utils.py:113 | joining each group and then running the chunks together is running all tokens together |
| TokenPacker.TokenGroupsBudget | rag/utils.py:101-125 | for a whole text: no more groups than sentences, no empty group, a group over the budget is one sentence's tokens, and no two neighbouring groups fit into chunk_size together |
| MarkdownChunker.NextHeading | rag/utils.py:146-147 | the first heading at or after a position (or the end): nothing between is a heading |
| MarkdownChunker.PositionsFrom | rag/utils.py:146-147 | the heading positions from a point on are increasing and each holds an atx_heading |
| MarkdownChunker.PositionsComplete | rag/utils.py:146-147 | every atx_heading from that point on is listed |
| MarkdownChunker.ChunkByHeadings | rag/utils.py:140-164 | the loop returns exactly the chunks of the heading sections of the root's children |
| MarkdownChunker.EmittedClosed | rag/utils.py:155-158 | before the first heading nothing is collected: what the loop emits from a position is the sections of the headings from there on |
| MarkdownChunker.EmittedOpen | rag/utils.py:146-162 | while a heading's section is open, the loop emits that section up to the next heading, then the sections of the later headings |
| MarkdownChunker.OpenAtEnd | rag/utils.py:160-162 | at the end of the children the open section is emitted, stripped |
| MarkdownChunker.OpenAtHeading | rag/utils.py:147-154 | a heading closes the open section and opens its own with its text and a blank line |
| MarkdownChunker.OpenAtPlain | rag/utils.py:155-158 | a non-heading node's text joins the open section |
| MarkdownChunker.EmittedPlain | rag/utils.py:155-158 | a non-heading node appends its extracted text to the parts being collected |
| MarkdownChunker.CollectedSection | rag/utils.py:150 | stripping the collected parts run together gives the section's chunk (also at line 162) |
| MarkdownChunker.SkipToHeading | rag/utils.py:155-158 | nodes before the next heading start no section |
| MarkdownChunker.SpansFromPositions | rag/utils.py:146-162 | each section runs from its heading to the next listed heading, or to the end of the children |
| MarkdownChunker.HeadingSpansAt | rag/utils.py:147-154 | a heading's section ends where the next heading's begins |
| MarkdownChunker.HeadingChunksSpec | rag/utils.py:140-164 | one chunk per atx_heading child, in document order; the m-th is strip(heading text + "\n\n" + the texts of the nodes up to the next heading); nodes before the first heading are in no chunk |
| MarkdownChunker.NoHeadingNoChunk | rag/utils.py:146-164 | a document without a heading gives no chunk |
| MarkdownChunker.ChunkMarkdown | rag/utils.py:167-172 | each section is packed by chunk_simple and the chunks of all sections are flattened in order |
| MarkdownChunker.PackSectionsLossless | rag/utils.py:171-172 | the flattened chunks, run together, are the tokens of all sections in order |
| MarkdownChunker.MarkdownChunksLossless | rag/utils.py:167-172 | chunk_markdown loses and reorders no token of any heading section of the parsed document |
| PdfChunker.ItemMarkerNeverMatches | rag/utils.py:666 | no line, whatever its text, passes the as-written test for the marker "Item ", since an upper-cased line holds no lower-case letter (also at line 676) |
| PdfChunker.ItemLineOpensNoSection | rag/utils.py:662-676 | a line whose stripped text starts with "Item " in any letter case opens no section under the test as written, and opens one under the intended test |
| PdfChunker.ItemLineMissed | rag/utils.py:662-676 | the filing line "Item 7" opens no section under the test as written, and opens one under the intended test |
| PdfChunker.MarkerLineStartsSection | rag/utils.py:662-676 | under the intended test, a line whose stripped text starts with any listed marker, as spelled, opens a section |
| PdfChunker.SplitSections | rag/utils.py:670-685 | the loop returns the line groups of the text, each joined with "\n": a line that opens a section closes a non-empty group and starts a new one; for the test as written and the intended test alike |
| PdfChunker.GroupsFlatten | rag/utils.py:674-685 | grouping keeps every line, in order, whatever the line test |
| PdfChunker.GroupsShape | rag/utils.py:674-685 | for any line test, the as-written one included: no group is empty, every group after the first starts with a line that opens a section, and no later line of a group opens one |
| PdfChunker.ItemLinesInSections | rag/utils.py:674-685 | as written, an "Item" line after the first line never starts a section and stays inside the one before it; as intended, every such line starts a section |
| PdfChunker.ItemSectionsDiffer | rag/utils.py:674-685 | the lines "Item 7", "Item 7" form one section as written and two as intended |
| PdfChunker.JoinAllFlatten | rag/utils.py:679 | joining the joined non-empty groups with the separator equals joining all their lines with it (also at line 685) |
| PdfChunker.SectionsLossless | rag/utils.py:670-685 | the sections joined with "\n" are the lines of the text joined with "\n": no text is lost, whatever the line test |
| PdfChunker.AmountAtIff | rag/utils.py:691 | the scanner for \s*[\d,]+ matches exactly when whitespace alone separates the position from a digit or comma |
| PdfChunker.HasTableFromIff | rag/utils.py:691 | the scan from a position finds a match exactly when "$" followed by that pattern occurs at or after it |
| PdfChunker.HasTableIff | rag/utils.py:691 | has_table holds exactly when the pattern \$\s*[\d,]+ matches somewhere in the section |
| PdfChunker.ChunkSection | rag/utils.py:689-713 | the inner loop returns the section whole when it has a table, otherwise its sentence groups joined with " " |
| PdfChunker.PackSplit | rag/utils.py:704-707 | a sentence that would push a non-empty chunk over the budget closes it and starts the next chunk with itself alone |
| PdfChunker.ChunkPdf | rag/utils.py:650-715 | the chunks are those of every section in order, with the sections cut by the given line test: the code as written with `StartsSectionAsWritten`, the intended chunker with `StartsSection` |
| PdfChunker.PackSentencesFlatten | rag/utils.py:702-713 | packing keeps every sentence, in order |
| PdfChunker.PackSentencesBudget | rag/utils.py:702-713 | every chunk is non-empty and either has at most chunk_size tokens or is a single sentence |
| PdfChunker.TokenCountSnoc | rag/utils.py:707 | the running length grows by the new sentence's token count (also at line 710) |
| PdfChunker.SectionChunksSpec | rag/utils.py:689-713 | a table section gives exactly one chunk equal to the section; a narrative section gives its sentences, all of them in order, in space-joined chunks that are non-empty and within budget unless a single sentence |
| CodeScan.CollectImports | rag/utils.py:175-180 | the loop returns the import_statement and import_from_statement children of the root, in order |
| CodeScan.ImportNodesSpec | rag/utils.py:175-180 | a node is collected exactly when it is one of the children and an import statement; there are no more imports than children |
| CodeScan.BuildImportMap | rag/utils.py:183-203 | the map is what assigning, in order, each name or alias bound by each import statement to that statement's text leaves behind (children from the fourth on for a from-import, every child for a plain import) |
| CodeScan.BindNames | rag/utils.py:188-202 | the inner loop assigns each dotted_name child's text, and each aliased_import child's alias (its third child), to the statement's text |
| CodeScan.AssignSnoc | rag/utils.py:191 | one more binding overwrites that name's entry and leaves the rest of the map as it was (also at lines 194, 199, 202) |
| CodeScan.AssignAppend | rag/utils.py:185-202 | assigning two runs of bindings is assigning the first, then the second |
| CodeScan.AssignDomain | rag/utils.py:183-203 | starting from the empty dict, a name is mapped exactly when some binding names it |
| CodeScan.AssignLastWins | rag/utils.py:183-203 | a mapped name maps to the text of the last binding that names it: later imports of the same name overwrite earlier ones |
| CodeScan.ImportMapSpec | rag/utils.py:183-203 | the import map holds exactly the imported names and aliases, each mapped to the last import statement that binds it |
| CodeScan.CollectModuleVariables | rag/utils.py:206-216 | the loop returns, in order, the target names of the top-level expression statements whose first child is an assignment to an identifier |
| CodeScan.ModuleVariablesSpec | rag/utils.py:206-216 | a name is listed exactly when some top-level statement assigns it, and there are no more names than statements |
| CodeScan.ModuleVariablesLength | rag/utils.py:206-216 | no more names than top-level statements |
| CodeScan.ModuleVariableSource | rag/utils.py:208-215 | every listed name comes from a top-level assignment, whose position is returned |
| CodeScan.ModuleVariableListed | rag/utils.py:208-215 | the target of every top-level assignment to an identifier is listed |
| CodeScan.IdentsIffVisible | rag/utils.py:219-233 | collect_identifiers finds exactly the identifiers reachable without entering the name or body of a function or class definition (only its parameters and return type) |
| CodeScan.IdentsOfIffVisible | rag/utils.py:231-233 | over a run of children the identifiers found are those reachable from one of them |
| CodeScan.TypeNamesIffVisible | rag/utils.py:236-241 | collect_identifiers_from_type_annotations finds exactly the texts of the type, type_identifier and identifier nodes that have no such node above them |
| CodeScan.TypeNamesOfIffVisible | rag/utils.py:239-241 | over a run of children the names found are those reachable from one of them |
| CodeScan.IdentifierSet.constructor | rag/utils.py:219 | a fresh identifier set is empty |
| CodeScan.IdentifierSet.CollectIdentifiers | rag/utils.py:219-233 | adds to the shared set exactly the identifiers of the tree, keeping what it held |
| CodeScan.IdentifierSet.CollectEach | rag/utils.py:231-233 | adds the identifiers of every child in turn |
| CodeScan.IdentifierSet.CollectTypeNames | rag/utils.py:236-241 | adds to the shared set exactly the type names of the tree, keeping what it held |
| CodeScan.IdentifierSet.CollectEachTypeNames | rag/utils.py:239-241 | adds the type names of every child in turn |
| CodeChunker.ListOfSet | rag/utils.py:278 | list(set(...)) gives each element of the set exactly once (also at lines 340, 441) |
| CodeChunker.CollectUsed | rag/utils.py:269-273 | the loop over the identifiers collects the import statements of exactly the identifiers in the import map, and exactly the identifiers that are module variables, each variable once (also at lines 330-334, 431-435) |
| CodeChunker.CollectStep | rag/utils.py:270-273 | one identifier not seen before adds its import statement when it is imported and itself when it is a module variable, and nothing else |
| CodeChunker.BuildContext | rag/utils.py:275-290 | the context holds the used imports and module variables when there are any and the enclosing class and function of the scope; it is None exactly when all four are absent (also at lines 336-352) |
| CodeChunker.FirstOfKind | rag/utils.py:253-256 | the inner definition found is one of the children, of one of the sought kinds (also at lines 415-418) |
| CodeChunker.ProcessDecoratedDefinition | rag/utils.py:244-303 | no record when the decorated node wraps no function or class definition; otherwise one record named after the inner definition, holding the text of the whole decorated node and the context of the identifiers of the whole node, of kind method for a function inside a class |
| CodeChunker.FunctionContext | rag/utils.py:313-352 | the context of a function is built from the identifiers of its body together with the type names of its parameters and return type |
| CodeChunker.ProcessFunction | rag/utils.py:306-380 | the function's own record (a method inside a class), then the records of each function directly in its body with the function as parent, and of each decorated definition there in the function's own scope, in order |
| CodeChunker.NestedChunksSnoc | rag/utils.py:367-379 | the nested records of one more body statement follow those of the statements before it |
| CodeChunker.ClassScan | rag/utils.py:395-425 | every member the scan hands on is a function definition or a decorated definition |
| CodeChunker.ScanClassBody | rag/utils.py:395-425 | the loop collects the attributes in order, the last __init__ seen, the other methods in order and the identifiers of the attributes, as the scan function does |
| CodeChunker.ScanMember | rag/utils.py:396-425 | one member: an assignment or annotated attribute adds its text and identifiers, a function or decorated function named __init__ replaces the init method, any other such function joins the methods, anything else (a nested class among it) is passed over |
| CodeChunker.ClassScanSnoc | rag/utils.py:395-425 | scanning one more member applies one step to the scan of the members before it |
| CodeChunker.ClassDefinitionLines | rag/utils.py:450-461 | the class text is the header `class Name:` without the bases, each attribute indented by four spaces, then the __init__ text split at line breaks after a blank line, joined with "\n" |
| CodeChunker.ProcessClass | rag/utils.py:383-485 | the class record, whose context holds only the imports and module variables its attributes use, then the records of its methods other than __init__ with the class as parent, in order |
| CodeChunker.ProcessMethod | rag/utils.py:472-484 | a decorated method goes through process_decorated_definition, any other through process_function, in the class's scope |
| CodeChunker.MethodChunksSnoc | rag/utils.py:472-484 | the records of one more method follow those of the methods before it |
| CodeChunker.ProcessRoot | rag/utils.py:488-524 | the records of the top-level classes, functions and decorated definitions, in order, each with an empty context; import statements and other statements give none |
| CodeChunker.ProcessRootChild | rag/utils.py:492-523 | one top-level statement is dispatched by its kind |
| CodeChunker.RootChunksSnoc | rag/utils.py:492-523 | the records of one more top-level statement follow those of the statements before it |
| CodeChunker.Shapes | rag/utils.py:245 | describes each record, with its lists of imports and module variables seen as sets, position by position (also at lines 302, 364, 470) |
| CodeChunker.ShapesAppend | rag/utils.py:371-378 | chunks.extend appends the described records (also at lines 476-484, 498-523) |
| CodeChunkerFacts.ContextSpecScope | rag/utils.py:275-290 | a context names exactly the class and function of its scope and the used imports and module variables, and is None only at top level with nothing used (also at lines 336-352) |
| CodeChunkerFacts.FirstOfKindFinds | rag/utils.py:253-258 | the search for the inner definition fails exactly when no child from the starting position has a sought kind |
| CodeChunkerFacts.DecoratedChunksSpec | rag/utils.py:244-303 | a decorated definition gives at most one record, one exactly when it wraps a function or class, named after the first one it wraps, holding the whole decorated text and naming the scope's class and function |
| CodeChunkerFacts.FunctionChunksScope | rag/utils.py:306-380 | every record of a function names the enclosing class of its scope, and is a method exactly when that class exists |
| CodeChunkerFacts.NestedChunksScope | rag/utils.py:366-379 | every nested record names the enclosing class of the function's scope |
| CodeChunkerFacts.NestedScopes | rag/utils.py:367-379 | a nested function names the function as its parent, while a nested decorated definition keeps the function's own parent |
| CodeChunkerFacts.MethodChunksScope | rag/utils.py:472-484 | every record of the methods of a class names the class and agrees with its kind |
| CodeChunkerFacts.ClassHead | rag/utils.py:463-485 | the class record comes first, names no class or function, and the method records follow it |
| CodeChunkerFacts.ClassChunksScope | rag/utils.py:383-485 | after the class record, every record is a method or a class and names the class as its parent |
| CodeChunkerFacts.RootChunksAgree | rag/utils.py:488-524 | in every record of a module, a method names its class and a function names none |
| CodeChunkerFacts.WithoutClassesWellFormed | rag/utils.py:395-425 | dropping the nested classes of a class body keeps only members of the body |
| CodeChunkerFacts.ClassScanIgnoresClasses | rag/utils.py:395-425 | a nested class contributes nothing to the scan: scanning the body without its nested classes gives the same attributes, __init__, methods and identifiers |
| CodeChunkerFacts.ClassScanOthers | rag/utils.py:406-425 | the methods handed on are exactly the members defining a function other than __init__, in order |
| CodeChunkerFacts.NestedChunksNone | rag/utils.py:366-379 | a body with no function or decorated definition gives no nested records |
| CodeChunkerFacts.PlainFunctionChunks | rag/utils.py:354-364 | a function without nested definitions gives only its own record (also at line 483) |
| CodeChunkerFacts.MethodChunksPlain | rag/utils.py:472-484 | plain methods give one record each, in order |
| CodeChunkerFacts.ClassChunksPlain | rag/utils.py:383-485 | a class whose methods are all plain gives the class record and then one method record per method other than __init__, in source order, with its name and text, naming the class |
| CodeChunkerFacts.HeaderAndAttributes | rag/utils.py:450-453 | joining the header and the indented attributes with "\n" puts each attribute on its own line after the header (also at line 461) |
| CodeChunkerFacts.ClassDefinitionSpec | rag/utils.py:450-461 | the rebuilt definition is `class Name:`, the attribute lines, then the __init__ text after a blank line; no other method's text appears in it |
| CodeRender.ConvertChunksToStrs | rag/utils.py:527-552 | the loop renders every record, in order |
| CodeRender.ChunkString | rag/utils.py:530-550 | one record's string is its context preamble (imports, module variables, class stub, function stub) and "\n    ", cut by four characters for a class, followed by its definition |
| CodeRender.RenderNoContext | rag/utils.py:532 | a record without a context, or a module record, renders as its definition alone (also at line 550) |
| CodeRender.RenderLayout | rag/utils.py:532-550 | otherwise the preamble comes first, then "\n    " before the definition, reduced to "\n" for a class |
| CodeRender.RenderEndsWithDefinition | rag/utils.py:550 | every rendering ends with the record's definition |
| CodeRender.RenderStartsWithImports | rag/utils.py:534-535 | a rendering whose context lists imports starts with them, one per line |
| CodeRender.KeepRenderedIff | rag/utils.py:563 | a rendering is kept exactly when a line boundary remains inside it once stripped |
| CodeRender.KeptSpec | rag/utils.py:563 | the filter keeps exactly the renderings that pass, and never adds one |
| CodeRender.PackAll | rag/utils.py:564-565 | the comprehension gives the token packer's pieces of every kept rendering, flattened in order |
| CodeRender.ChunkSourceCode | rag/utils.py:555-565 | the documents are those of the module's records, rendered, filtered and packed, for some listing of each record's import set and module-variable set |
| Dataset.ChunkDataset | rag/utils.py:718-767 | the call raises exactly when some document lacks a string "content" or a "file_type"; otherwise the records are those of every document in turn, for a chunking each document's chunker may return; PDF documents are cut with the line test `opensSection` of the collaborators, the code as written with `StartsSectionAsWritten` |
| Dataset.ChunkDocument | rag/utils.py:722-757 | the branch on the file type runs the Python, notebook, PDF or markdown chunker, markdown for every other type; the PDF chunker runs with the collaborators' line test, `StartsSectionAsWritten` for the code as written |
| Dataset.EmitRecords | rag/utils.py:724-732 | the inner loop emits one record per chunk, in the chunker's order (also at lines 735-743, 747-755, 758-766) |
| Dataset.DocRecordsSnoc | rag/utils.py:724-732 | the records of one more chunk follow those of the chunks before it |
| Dataset.DatasetRecordsSnoc | rag/utils.py:720-767 | the records of one more document follow those of the documents before it |
| Dataset.ChunkingsSnoc | rag/utils.py:720-757 | a chunking of one more document extends the chunkings of the documents before it |
| Dataset.ChunkRecordSpec | rag/utils.py:725-731 | a record holds the chunk, its text, make_id of the raw chunk, the document id and the chunk number, has no "content", and copies every other key of the document unchanged |
| Dataset.PutGet | rag/utils.py:727-731 | assigning a key sets that key and leaves the others as they were |
| Dataset.DocRecordsSpec | rag/utils.py:721-731 | chunk i of a document is numbered i, all chunks share doc_id = make_id(content), chunk_id is make_id of the raw chunk even where "text" is its plain-text conversion (PDF and markdown) (also at lines 751, 762) |
| Dataset.DatasetRecordsAt | rag/utils.py:719-767 | chunk i of document j sits at the number of chunks of the documents before j, plus i |
| Dataset.DatasetRecordsCount | rag/utils.py:719-767 | there are as many records as chunks |
| Dataset.ListItems | rag/utils.py:605-610 | the loop over doc.items() writes one "- key: value" line per listed key, in the record's order |
| Dataset.ListingSnoc | rag/utils.py:605-610 | one more item adds its line, or nothing when it is not listed |
| Dataset.ListingIgnoresHidden | rag/utils.py:606-609 | removing a key format_doc does not list leaves the listing unchanged |
| Dataset.ListingWithoutIds | rag/utils.py:607-609 | without with_ids the listing is that of the record with doc_id and chunk_id removed, listed with ids |
| Dataset.FormatDoc | rag/utils.py:603-628 | format_doc returns the listing, a blank line, the "text" of a Python record or the "chunk" of any other, cut to max_length and followed by the "..." trailer when max_length is truthy, and raises when the body is missing or not a string or the metadata lookup raises |
| Dataset.FormattedSpec | rag/utils.py:603-628 | the output starts with the listing and a blank line; with a positive max_length at most that many body characters follow, then the trailer; otherwise the whole body; it raises exactly in the cases above |
| Dataset.FormatChunkRecord | rag/utils.py:614-625 | format_doc of a record chunk_dataset made for a document with a non-empty string file type, without max_length, is its listing, a blank line and the raw chunk, for every file type (also at lines 727-728, 750, 761) |
| Dataset.RecordBody | rag/utils.py:614-625 | format_doc finds the document's file type in such a record and reads the raw chunk as its body |
| Dataset.RecordFields | rag/utils.py:725-731 | such a record keeps the document's file_type and holds the chunk and its text |
| Embedding.BatchEmbed | rag/retriever.py:158-197 | the loop returns the stacked rows of every batch the service answers, in order, skipping a batch refused with a rate-limit error and re-raising any other error; a batch size of zero raises, a negative one leaves nothing to stack |
| Embedding.BatchesStep | rag/retriever.py:162-164 | the batches from position i are docs[i : i + batch_size] followed by the batches after it |
| Embedding.ThenAppend | rag/retriever.py:180 | extending the collected rows with a batch's rows and then the rest's is extending with both at once |
| Embedding.BatchesSizes | rag/retriever.py:162-164 | every batch holds between one and batch_size texts, and every batch but the last exactly batch_size |
| Embedding.BatchesFlatten | rag/retriever.py:162-164 | the batches run together are the texts, in order |
| Embedding.EmbeddedErrIff | rag/retriever.py:185-193 | the loop raises exactly when some batch fails with an error whose text does not contain "rate limit exceeded" (in any case) |
| Embedding.RateLimitSkips | rag/retriever.py:186-191 | a rate-limited batch is skipped, not retried: the result is that of the other batches |
| Embedding.EmbeddedAligned | rag/retriever.py:162-180 | with a service that answers every batch with one row per text, the rows are those of each batch in turn, one per text |
| Embedding.EmbeddedShorter | rag/retriever.py:162-191 | with such a service there are never more rows than texts, and a skipped batch leaves its texts without rows |
| Embedding.BatchEmbedAligned | rag/retriever.py:158-197 | texts, a positive batch size and a service that never fails and answers one row per text, all of one width: one row per text |
| Embedding.FlattenMember | rag/retriever.py:180 | every stacked row comes from one of the batches (also at line 195) |
| Engines.HitSpec | rag/retriever.py:86 | {"score": score, **doc} has "score" as its first key, holding the document's own score when it has one and the ranking's otherwise, and every other key of the document unchanged (also at lines 151-152, 268-269) |
| Engines.HitsSpec | rag/retriever.py:84-89 | the output loop succeeds exactly when every ranked position is in range, and then gives one hit per ranked position, in rank order (also at lines 148-155, 263-272) |
| Engines.HitsErrPrefix | rag/retriever.py:84-89 | once a position is out of range the loop raises and nothing after it matters |
| Engines.CollectHits | rag/retriever.py:82-89 | the loop builds exactly the hits, or raises IndexError (also at lines 262-272) |
| Engines.TextsSpec | rag/retriever.py:52 | [doc["text"] for doc in data] succeeds exactly when every document has a text, and then gives them in order; otherwise it raises the error of the first document without one (also at lines 118, 226, 328) |
| Engines.TextsOk | rag/retriever.py:52 | the texts exist exactly when each document has one, and are then one per document in order |
| Engines.TextsErr | rag/retriever.py:52 | when the texts fail, the error is that of the first document without a text |
| Engines.LastTextErr | rag/retriever.py:52 | a failure at the last document, after all the others succeeded, is the error of that document |
| Engines.FirstTextErrExtends | rag/retriever.py:52 | the first failing document of a prefix is the first failing document of the whole list |
| Engines.TfidfSearchEngine.constructor | rag/retriever.py:36-39 | a new engine has neither data nor index |
| Engines.HasTermIff | rag/retriever.py:55 | a text holds two adjacent word characters exactly when the vectorizer's default token pattern \b\w\w+\b matches in it |
| Engines.TfidfIndexSpec | rag/retriever.py:53-55 | fit_transform succeeds exactly when every document has a text and some text holds a term; an empty corpus, or one without a term, raises ValueError "empty vocabulary" |
| Engines.TfidfSearchEngine.Fit | rag/retriever.py:41-56 | fit stores the documents before reading their texts; it sets the index to the texts, or raises (a missing text, or an empty vocabulary) and leaves the old index beside the new data |
| Engines.TfidfSearchEngine.Search | rag/retriever.py:58-89 | search raises its assertion until an index is set, and otherwise returns the hits of the first top_k ranked positions |
| Engines.TfidfFitThenSearch | rag/retriever.py:41-89 | after a fit that built an index, a search whose ranking stays in range returns each of the first top_k ranked documents with its score in front |
| Engines.BM25SearchEngine.constructor | rag/retriever.py:102-105 | a new engine has no data and an empty index |
| Engines.BM25SearchEngine.Fit | rag/retriever.py:107-125 | fit stores the documents, then indexes their texts or raises leaving the old index |
| Engines.BM25SearchEngine.Search | rag/retriever.py:127-155 | search raises its assertion until fitted, and otherwise returns the retrieved documents in retrieval order, each with its score in front |
| Engines.BM25FitThenSearch | rag/retriever.py:107-155 | after a fit, the results are the retrieved documents in order, each with its score |
| Engines.DenseSearchEngine.constructor | rag/retriever.py:210-214 | a new engine has neither data nor index |
| Engines.DenseSearchEngine.Fit | rag/retriever.py:216-233 | fit stores the documents, then sets the index to batch_embed of their texts, or raises leaving the old index |
| Engines.DenseSearchEngine.Search | rag/retriever.py:235-272 | search raises on a missing index before embedding the query; otherwise it embeds the query with batch_embed and returns the hits of the first top_k ranked positions |
| Engines.DenseFitAligned | rag/retriever.py:216-233 | with a service that never fails and answers one row per text, all of one width, the index of a fit on non-empty documents with texts holds one row per document |
| Engines.DenseQueryRateLimited | rag/retriever.py:249-253 | a rate-limited query embedding is skipped, leaving nothing to stack, so the search raises |
| Engines.BatchVectors | rag/retriever.py:331-334 | zip stops at the shorter of rows and documents: one vector per pair, id str(i + idx), metadata the document without "vector" |
| Engines.VectorStoreSearchEngine.constructor | rag/retriever.py:296-308 | a new engine has no index handle and nothing upserted |
| Engines.VectorStoreSearchEngine.Fit | rag/retriever.py:310-337 | fit opens the index, then upserts the vectors of every batch of 50 documents in order; the first error stops it after the batches before it were upserted |
| Engines.VectorStoreSearchEngine.EmbedBatch | rag/retriever.py:327-334 | one pass of the loop: the batch's texts, their batch_embed rows and the vectors made of them, or the error raised |
| Engines.FitStep | rag/retriever.py:326-335 | the upserts from position i are those of the batch at i followed by those from the next batch on, unless the batch fails |
| Engines.FitAdvance | rag/retriever.py:326-335 | one more batch either ends the upserts with its error or extends the vectors sent with its own |
| Engines.VectorStoreSearchEngine.Load | rag/retriever.py:339-341 | load opens the index and upserts nothing |
| Engines.VectorStoreSearchEngine.Search | rag/retriever.py:343-363 | search embeds the query, asks the store for the matches and returns each match's metadata with "score" set, in order; without an index it raises |
| Engines.ScoredSpec | rag/retriever.py:358-361 | one result per match, in order: the metadata with "score" set to the match's score (in place when present, last otherwise), every other key unchanged |
| Engines.ScoredAt | rag/retriever.py:358-361 | result j is match j's metadata with its score assigned |
| Engines.FitFromPositional | rag/retriever.py:326-335 | the upserted vectors come from documents at increasing positions, each with its position as id and its document without "vector" as metadata |
| Engines.BatchPositional | rag/retriever.py:331-334 | the vectors of one batch come from its documents in order |
| Engines.PositionalAppend | rag/retriever.py:326-335 | the vectors of two consecutive runs of documents keep their positions when joined |
| Engines.FitIds | rag/retriever.py:332 | every upserted id is the position of its document in the data, in decimal, so no two ids of one fit are alike |
| Engines.FitFromAligned | rag/retriever.py:326-335 | with a service that never fails and answers one row per text, all of one width, a fit over documents with texts raises nothing and upserts one vector per document |
| Engines.FitFromComplete | rag/retriever.py:326-335 | when every batch of documents with texts gives one vector per document, so does the whole fit |
| Engines.FitHead | rag/retriever.py:326-335 | the first batch of such a fit sends one vector per document and leaves the rest to the next batches |
| Engines.FitAlignedIds | rag/retriever.py:326-335 | then the k-th vector is the k-th document's: id str(k), metadata the document without "vector" |
| Engines.IncreasingFull | rag/retriever.py:332 | as many increasing positions as consecutive slots fill them all |
| Engines.IncreasingAtLeast | rag/retriever.py:332 | the j-th of increasing positions from lo is at least lo + j |
| Engines.BatchAligned | rag/retriever.py:327-334 | with such a service a batch of documents with texts gives one vector per document |
| Retrieval.Derive | rag/retriever.py:431-440 | a lone truthy top_k keeps top_k results from twice as many candidates, a lone truthy top_n likewise; equal values double the candidates; any other pair becomes (10, 5); both None raises TypeError (also at lines 453-462) |
| Retrieval.DeriveDoubled | rag/retriever.py:431-440 | the call that asks for twice as many candidates as results, as rag/tools.py line 56 does, gets the defaults (10, 5) instead |
| Retrieval.Dedup | rag/retriever.py:469-472 | the dedup loop returns the values of the dict keyed by chunk_id, or raises on a candidate without a usable chunk_id |
| Retrieval.DedupedErrPrefix | rag/retriever.py:470-471 | once a candidate raises, the loop's result is that error |
| Retrieval.DedupedErr | rag/retriever.py:470-471 | the dedup raises exactly when some candidate has no chunk_id or an unhashable one |
| Retrieval.OccurrenceSpec | rag/retriever.py:470-471 | a chunk id has a first occurrence exactly when it has a last one, and neither when no candidate carries it |
| Retrieval.FirstAtSpec | rag/retriever.py:470-471 | the first occurrence carries the chunk id and no candidate before it does |
| Retrieval.LastAtSpec | rag/retriever.py:470-471 | the last occurrence carries the chunk id and no candidate after it does |
| Retrieval.DedupedKeys | rag/retriever.py:469-471 | one entry per distinct chunk id, no more entries than candidates, each holding the last candidate with that id |
| Retrieval.DedupedOrder | rag/retriever.py:469-472 | the entries come in the order of the first occurrence of their chunk ids |
| Retrieval.OrderKept | rag/retriever.py:470-471 | one more candidate keeps the order of the ids seen before it |
| Retrieval.OrderExtended | rag/retriever.py:470-471 | a new chunk id is placed after all the ids seen before it |
| Retrieval.DedupedCandidates | rag/retriever.py:468-472 | the merged candidates are no more than were retrieved, each one of them, no two with the same chunk id |
| Retrieval.DenseWins | rag/retriever.py:468-471 | the dense candidates come after the sparse ones, so a chunk id the dense engine returned keeps a dense candidate |
| Retrieval.Record.constructor | rag/retriever.py:86 | a record holds the dict it is made of (also at lines 268-271) |
| Retrieval.FieldsOf | rag/retriever.py:380 | reads the dicts behind the records, position by position (also at line 400) |
| Retrieval.RerankTextsLength | rag/retriever.py:380 | the texts sent to the service are one per candidate, in order |
| Retrieval.Reranker.constructor | rag/retriever.py:374-375 | the reranker's model is "bge-reranker-v2-m3" |
| Retrieval.Reranker.Invoke | rag/retriever.py:378-403 | output j is the caller's own dict at the index of result j, with "score" written into it; a dict several results point at keeps the last score; an index past the end raises after the results before it were written; an error before the loop leaves every dict unchanged |
| Retrieval.WriteScores | rag/retriever.py:398-403 | the loop writes each result's score into the dict it names and appends that dict, raising IndexError at the first index past the end |
| Retrieval.ScoreStep | rag/retriever.py:400-401 | writing result j's score changes the dict it names and no other |
| Retrieval.PutPut | rag/retriever.py:401 | assigning "score" twice leaves the second value |
| Retrieval.FinalScoreDistinct | rag/retriever.py:398-402 | for distinct dicts, the dict at position i ends with the score of the last result naming i |
| Retrieval.RerankSpecScores | rag/retriever.py:398-403 | output j is the candidate named by result j with "score" set to the last score naming it, which is result j's own score when no candidate is named twice; every other key is the candidate's |
| Retrieval.LastScoreFound | rag/retriever.py:398-402 | a named position has a last score, and with no position named twice it is that result's own |
| Retrieval.MakeRecords | rag/retriever.py:86 | one fresh, distinct record per candidate, holding it (also at lines 268-271, 359) |
| Retrieval.RerankRecords | rag/retriever.py:378-403 | reranking candidates that are distinct dicts gives, read back as values, output j = candidate index_j with its final score |
| Retrieval.RetrieverWithReranker.constructor | rag/retriever.py:415-416 | the retriever keeps the reranker it is given |
| Retrieval.RetrieverWithReranker.Invoke | rag/retriever.py:419-443 | derives the counts, fetches top_k candidates from the engine and returns the reranker's top_n, propagating any error |
| Retrieval.HybridRetrieverWithReranker.constructor | rag/retriever.py:447-449 | the retriever keeps the reranker it is given |
| Retrieval.HybridRetrieverWithReranker.Invoke | rag/retriever.py:452-474 | derives the counts, fetches top_k candidates from the sparse and then the dense engine, merges them by chunk_id and returns the reranker's top_n, propagating any error |

## Left out

- Network services: the embedding, reranking and index calls of Pinecone, the litellm cache and `run_llm`. They are function parameters or not modelled.
- Index creation in `VectorStoreSearchEngine.fit` (`list_indexes`, `create_index`) and the store's own query semantics, filters included. The store is the parameter `ask`; the model keeps the vectors upserted, in order.
- Floating-point ranking: TF-IDF and BM25 scoring, cosine distance, `argsort` and `round(..., 4)`. Each engine's ranking is a parameter giving (position, score) pairs.
- `mdify`, `convert_contents_to_text`, `read_notebook` and `chunk_notebook`. These are calls into HTML, markdown and notebook libraries; each is a parameter of `Dataset.Collaborators`.
- `tokenize_text`, `sent_tokenize`, `make_id` (MD5) and the tree-sitter parsers. They are parameters; a parsed tree is a `Syntax.Node` value.
- `time.sleep`, `print`, `async`/`await` and `asyncio.run`. They carry no logic.
- `render_doc`, `printmd`, `load_dataset`, `prepare_documents_for_pinecone` and `make_batches_for_db`. They are display, file input or trivial projections outside the core.
- `Retriever.invoke`, which only delegates to the engine's search. The retrievers take the search as a parameter.
- The `_model` fields of the dense and vector-store engines and the embedding model names; they only reach the remote service.
- Values that are not strings where the code reads text: `Engines.TextOf` refuses them, while the Python vectorizers and the service would decide for themselves.
- Engines.DenseSearchEngine.Search: requires the class invariant that an index is only set after data. The constructor and `fit` keep it, so no sequence of calls reaches the state the requirement excludes.
- PdfChunker.ChunkPdf, Dataset.ChunkDataset, Dataset.ChunkDocument: the line test is a parameter (`opensSection` among the collaborators of `chunk_dataset`). With `PdfChunker.StartsSectionAsWritten` they are the code as written, which never starts a section at an "Item" line; with `PdfChunker.StartsSection` they are the corrected chunker (see Findings).
- Common.Upper, Common.Lower, PdfChunker.IsAmountChar and Engines.IsWordChar cover ASCII characters only. Python's `str.upper` maps the full Unicode range and can change a string's length (`'ß'.upper() == 'SS'`). Python's `\d` and `\w` also match non-ASCII digits and letters. Text outside ASCII can therefore open a section, hold a table or hold a term in Python and not in the model.
- Booleans and lists as dict values. `Dicts.Value` has neither, so `format_doc` of a boolean field and a boolean `chunk_id` (equal to 1 as a dict key) cannot be expressed.
- CodeRender.ChunkSourceCode: states the documents up to the order in which Python lists a set: the import lists and the module-variable lists of each record follow the iteration order of the `identifiers` set (`rag/utils.py:268-272`, and likewise in `process_function` and `process_class`), which is not modelled.

## Findings

| source | as written | input that shows it | evidently intended | confidence | as-written member | corrected member |
|---|---|---|---|---|---|---|
| rag/utils.py:666-676 | the marker "Item " is compared against the stripped line upper-cased, so it can never match | a line "Item 7" | a line starting with "Item " opens a section, like the other markers | high, not executed | PdfChunker.ItemLinesInSections | PdfChunker.MarkerLineStartsSection |
