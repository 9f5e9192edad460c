# Models and proofs for the SMO's scripts, SDK and lifecycle

This project models the parts of the repository whose correctness is not obvious from reading one function, and proves what their
documentation promises, or exactly when the code keeps the promise. `dafny verify dfyconfig.toml` checks everything.

| modules | what they model |
|---|---|
| `CLikeLexer`, `CLikeBlank`, `CLikeSegments`, `CLikeLiterals`, `CLikeInsert`, `CLikeTokens` | the Java and SQL lexer, comment blanking in place, and the token lists that decide whether a change is "comments only" |
| `ShellNormalizer` | shell source without comments: quotes, here-documents and the line loop |
| `YangSyntax`, `YangTypes`, `YangBundle`, `YangLibrary`, `YangClasses` | the YANG tokenizer and parser with its shared cursor, typedef and range resolution, grouping expansion, the library files behind the definitions used, and the object they fill |
| `CaRotation` | the development CA: what each command writes, file by file, and services that reread and restart in between |
| `SchemaModel`, `SchemaCompat`, `SpecCompat` | JSON Schema validity, the check for breaking changes, and whole documents |
| `Idempotency` | one idempotency key between replicas: reservations, takeovers, crashes, releases and expiry, interleaved at will |
| `RetryPolicy`, `CallEngine`, `TokenSource` | the Go SDK: backoff in 64-bit durations, the retry and renewal loops against a lossy network and a server that keeps the first answer of a key, the shared token |
| `StateMachines`, `ModelLifecycle` | the table-driven state machine, the model lifecycle, and replicas that move one row with optimistic versions |
| `ConstFold`, `ConstBinding` | the constant folder against evaluation, module constants, and a wrapper's default at a call |
| `DbRoles` | the statements of the database roles and the state they reach |
| `Text` | searching and white space, shared by the text models |

Loops and objects that change state are methods and classes, each proved to compute a specification function or to make one step of a
specification; the theorems are about those functions and about every run of those steps.

Where the code does less than its documentation says, the code is kept and a lemma gives the input or the exact condition:

- Putting a comment in place of the line break that ends a line comment leaves the tokens unchanged exactly when the next line adds none
  (`CLikeTokens.LineBreakIsExact`); in SQL the comment text must not end in a slash (`CLikeTokens.InertIsNoSlash`, `CLikeTokens.SlashReopens`).
- `norm_shell` keeps a line that opens a quote exactly when it does not end in white space (`ShellNormalizer.OpeningLineIsKept`).
- A client certificate stays one through a renewal exactly when its name is not `localhost` (`CaRotation.KindsStay`). A client name with a
  slash is out of reach of every later command and ends in disagreement, and `../x` overwrites a service (`CaRotation.SlashNames`,
  `CaRotation.StrayDisagrees`, `CaRotation.ServerOverwritten`); other names without a slash, except `..`, are safe (`CaRotation.PlainNames`).
- The compatibility check compares one schema of a body and never the media types: old payloads stay accepted exactly when every old media
  type is still listed (`SpecCompat.MediaStayExactly`, `SpecCompat.MovedMediaEscapes`); a reply may drop its JSON (`SpecCompat.SilentReplyEscapes`).
- It misses changes under the sixth level (`SchemaCompat.DeepChangesAreInvisible`), added types, items and patterns
  (`SchemaCompat.UnreadKeywords`), undeclared names that become properties, and an enum in which `True` is replaced by `1`; each is harmless
  under an exact condition (`SchemaCompat.AddedTypeIsExact`, `SchemaCompat.AddedItemsAreExact`, `SchemaCompat.AddedPatternIsExact`,
  `SchemaCompat.AddedPropertyIsExact`, `SchemaCompat.ChangedEnumIsExact`).
- It does not read what a new response schema requires, so a property clients could rely on stays in every reply exactly when the new
  schema still requires it (`SchemaCompat.RequiredIsUnread`, `SchemaCompat.RequiredIsExact`).
- `type_of` ends exactly when a rank falls at every option (`SchemaCompat.TypeEndsExactly`).
- Taking over an idempotency key, or removing its expired record, is safe exactly when no owner is still running and the command has not
  taken effect; otherwise, or when a route raises after its own commit, it can take effect twice (`Idempotency.TakeOverIsExact`,
  `Idempotency.PurgeIsExact`, `Idempotency.LateFailureIsUnsafe`). Of these the documentation names the crash after the effect and the expiry. An answer
  a route returns is stored whatever its status, although only 2xx answers are documented to be (`Idempotency.RunsAlone`).
- A doubling in the backoff overflows for ceilings above 2^62 ns that a doubling of the base can fall under (`RetryPolicy.WaitIsDocumented`).
- Repeating an approval changes no column, so it is committed without a version check and can break the audit chain
  (`ModelLifecycle.AuditIsARun`, `ModelLifecycle.StaleRepeat`), although every update is documented to be conditional.
- `fold` ignores conversions: an f-string is right exactly when no `!r` or `!a` in it meets a string (`ConstFold.FormattingMatters`). A
  rebinding it cannot fold is harmless exactly when the name was never folded (`ConstBinding.StaleConstant`). The defaults it finds are
  Python's exactly when none belongs to a positional-only parameter (`ConstBinding.DefaultsLineUp`), and unpacked arguments are harmless
  exactly when they disturb nothing (`ConstBinding.SameSource`).
- A database role keeps what it had on its own schema (`DbRoles.SchemasExact`).

## Model

| member | source | states |
|---|---|---|
| CLikeLexer.SpellAtoms | smo/scripts/docs_common.py:151-230 | The pieces a scan finds, put together again, are the text: nothing is lost, added or read twice, for every text, unterminated literals included. |
| CLikeLexer.PlainIsLocal | smo/scripts/docs_common.py:167-228 | Where no comment or literal opens, none opens in any text that agrees up to a white-space character or the end: the lookahead never reaches past white space. |
| CLikeLexer.OpensIsLocal | smo/scripts/docs_common.py:171-222 | A comment or literal that opens has the same kind and length in every text that agrees on it and does not continue it, whatever comes later. |
| CLikeBlank.BlankIsInvisible | smo/scripts/docs_common.py:151-244 | Rescanning the blanked text finds the same code and the same literals, and white space where each comment was; for every Java and SQL text. |
| CLikeBlank.FirstIsLocal | smo/scripts/docs_common.py:167-228 | A text that keeps its first piece, followed by what followed it or by white space, starts with the same piece. |
| CLikeBlank.BlankKeeps | smo/scripts/docs_common.py:233-244 | Blanking keeps the length and every line break, changes nothing before the first comment, and leaves white space where that comment began. |
| CLikeBlank.BlankIsIdempotent | smo/scripts/docs_common.py:233-244 | Blanking twice is blanking once, and the blanked text has no comment left (string literals kept). |
| CLikeSegments.SegmentsTile | smo/scripts/docs_common.py:152-165 | The segments are not empty, follow each other, cover the text exactly, and no two code segments meet. |
| CLikeSegments.BlankSegments | smo/scripts/docs_common.py:151-244 | Rescanning the blanked text finds exactly the original string segments, at the same offsets. |
| CLikeSegments.BlankKeepsPlaces | smo/scripts/docs_common.py:233-244 | Each character of the blanked text is the original one or a space, and the line breaks are the same ones. |
| CLikeSegments.LinesStay | smo/scripts/docs_common.py:233-244 | With or without `keep_strings`, the length and the place of every line break stay, so line numbers do. |
| CLikeSegments.KeepingStringsIsBlank | smo/scripts/docs_common.py:236-244 | With `keep_strings` the loop over segments computes the text whose rescan `CLikeBlank.BlankIsInvisible` describes. |
| CLikeSegments.MaskIsBlank | smo/scripts/docs_common.py:236-244 | Masking segment by segment is masking piece by piece, and every segment lies inside the text. |
| CLikeSegments.NestedCommentEnd | smo/scripts/docs_common.py:178-187 | The loop over `depth` and `j` ends where the nested comment is closed, or at the end of the text. |
| CLikeSegments.TextBlockEnd | smo/scripts/docs_common.py:191-196 | The loop ends after the closing triple quote, escapes skipped, or at the end of the text. |
| CLikeSegments.QuotedEnd | smo/scripts/docs_common.py:197-215 | The loop ends after the closing quote: doubled quotes in SQL, escapes and line breaks in Java. |
| CLikeSegments.LeadAt | smo/scripts/docs_common.py:171-222 | The branches, in their order, decide what opens at a position from the rest of the text alone. |
| CLikeSegments.ScanCLike | smo/scripts/docs_common.py:151-230 | The scan loop returns the segments the theorems speak of. |
| CLikeSegments.MaskKeepsLines | smo/scripts/docs_common.py:238-243 | What a segment becomes has its length and its line breaks, at the same places, whatever kind it is and whatever is asked for strings. |
| CLikeSegments.BlankInPlace | smo/scripts/docs_common.py:233-244 | The blanking loop returns the text the theorems speak of. |
| CLikeLiterals.JavaLiteralIsWhole | smo/scripts/docs_common.py:197-215 | Every Java string or char, its contents escaped, is one literal whatever follows (but a third quote after an empty string). |
| CLikeLiterals.SqlLiteralIsWhole | smo/scripts/docs_common.py:197-215 | Every SQL string or quoted identifier, its quotes doubled, is one literal unless its own quote follows. |
| CLikeLiterals.DollarLiteralIsWhole | smo/scripts/docs_common.py:216-222 | A dollar-quoted body that does not hold its own tag is one literal whatever follows. |
| CLikeLiterals.LineCommentIsWhole | smo/scripts/docs_common.py:172-175 | A line comment runs up to the line break and does not include it. |
| CLikeInsert.CommentIsWhole | smo/scripts/docs_common.py:176-190 | A block comment around an inert text is exactly one comment, whatever follows it. |
| CLikeInsert.InsertComment | smo/scripts/docs_common.py:167-230 | Putting a comment in place of white space of the code changes that place only, exactly when the white space is not the line break that ends a line comment. |
| CLikeInsert.LineCommentGrows | smo/scripts/docs_common.py:172-175 | Replacing the line break that ends a line comment makes the comment longer. |
| CLikeTokens.NormIgnoresBlanking | smo/scripts/verify_docs_only.py:290-313 | A file and its blanked form have the same Java and SQL tokens: `norm_java` and `norm_sql` see no comment. |
| CLikeTokens.CodeTokensSplit | smo/scripts/verify_docs_only.py:287-313 | White space cuts a run of code into two runs that are tokenized independently, maximal operators and words included. |
| CLikeTokens.InsertKeepsTokens | smo/scripts/verify_docs_only.py:290-313 | A comment in place of white space leaves the token list unchanged, wherever it is done and whatever follows, unless that white space ends a line comment. |
| CLikeTokens.LineBreakIsExact | smo/scripts/verify_docs_only.py:290-313 | Replacing the line break that ends a line comment leaves the tokens unchanged exactly when the line after it adds none: when the rest of the file has the same tokens from that line on as from the next. |
| CLikeTokens.InsertAfterComment | smo/scripts/docs_common.py:172-175 | What such an edit does to the scan: all before the comment as it was, a longer comment, and the scan of the next line on. |
| CLikeTokens.LineBreakMatters | smo/scripts/verify_docs_only.py:290-300 | The shortest case: replacing the line break after a line comment turns the code after it into comment. |
| CLikeTokens.InertIsNoSlash | smo/scripts/docs_common.py:178-187 | A text free of comment delimiters can stand in every Java comment, and in an SQL one exactly when it does not end in a slash. |
| CLikeTokens.SlashReopens | smo/scripts/docs_common.py:178-187 | A text that does end in a slash reopens the SQL comment with its own closing mark, so the comment runs on one level deeper, whatever follows. |
| CLikeTokens.SlashMatters | smo/scripts/docs_common.py:178-187 | The shortest such text: the comment then runs to the end of a text that closes none. |
| CLikeTokens.SegTokensAreTokens | smo/scripts/verify_docs_only.py:293-299 | Tokenizing segment by segment, code by the pattern, strings whole and comments not at all, gives the tokens of the pieces the theorems speak of. |
| CLikeTokens.Normalise | smo/scripts/verify_docs_only.py:290-313 | The loop over segments returns the token list the theorems speak of. |
| ShellNormalizer.ScanPrefix | smo/scripts/verify_docs_only.py:128-163 | A line cut anywhere only blanks follow (before its comment or its end) ends in the same quotes and announces the same here-documents as the whole line. |
| ShellNormalizer.DocAtPrefix | smo/scripts/verify_docs_only.py:155-158 | The here-document delimiter found in the cut line is the one found in the whole line. |
| ShellNormalizer.KeptAgain | smo/scripts/verify_docs_only.py:163-169 | What a line keeps is a prefix of it, is kept again unchanged, and leaves the same state. |
| ShellNormalizer.NormShellTwice | smo/scripts/verify_docs_only.py:112-170 | `norm_shell` of its own joined output is that output, for every text. |
| ShellNormalizer.CommentIsInvisible | smo/scripts/verify_docs_only.py:153-154 | A comment added after a separator outside quotes changes neither what its line keeps nor the state after it. |
| ShellNormalizer.CommentsDoNotCount | smo/scripts/verify_docs_only.py:112-170 | So the normal form of a file does not depend on it, wherever the line stands outside quotes and here-documents, exactly when it does not make the first line one that starts with `#!`. |
| ShellNormalizer.SplitJoin | smo/scripts/verify_docs_only.py:114-114 | Splitting what was joined gives the lines back. |
| ShellNormalizer.BodyIsVerbatim | smo/scripts/verify_docs_only.py:120-124 | A here-document is copied line by line up to and with its delimiter, and the next waiting one starts. |
| ShellNormalizer.QuotedIsVerbatim | smo/scripts/verify_docs_only.py:128-167 | A line that starts inside a quote of either kind is kept up to its cut without losing blanks, and its cut is the whole line unless the quote closes and a comment follows. |
| ShellNormalizer.CommentsStandOutside | smo/scripts/verify_docs_only.py:153-154 | A comment is cut only where no quote is open. |
| ShellNormalizer.OpeningLineIsKept | smo/scripts/verify_docs_only.py:168-169 | A line that opens a quote and ends inside it is kept whole exactly when it does not end in white space. |
| ShellNormalizer.OpeningLineLosesBlanks | smo/scripts/verify_docs_only.py:168-169 | A concrete text that loses quoted blanks this way. |
| ShellNormalizer.ScanLine | smo/scripts/verify_docs_only.py:129-163 | The inner loop computes the scan the theorems speak of. |
| ShellNormalizer.NormLine | smo/scripts/verify_docs_only.py:120-169 | The body of the outer loop: what one line contributes and the state after it. |
| ShellNormalizer.Normalise | smo/scripts/verify_docs_only.py:112-170 | The outer loop computes the normal form the theorems speak of. |
| YangSyntax.LexReads | smo/scripts/ingest_yang_schema.py:77-113 | Tokenizing any legal layout of lexemes, with white space and both kinds of comments anywhere, gives exactly their tokens. |
| YangSyntax.QuoteReads | smo/scripts/ingest_yang_schema.py:96-107 | A quoted string is read to its closing quote and its escapes are resolved. |
| YangSyntax.ParseTree | smo/scripts/ingest_yang_schema.py:116-148 | Parsing the tokens of a tree gives the tree and stops right after it. |
| YangSyntax.RoundTrip | smo/scripts/ingest_yang_schema.py:77-148 | Every legal layout of a statement tree, arguments quoted, escaped and split with `+` at will, parses to that tree (sections 6.1 and 6.3 of RFC 7950). |
| YangSyntax.PrintRoundTrip | smo/scripts/ingest_yang_schema.py:77-148 | Printing any tree with legal keywords, whatever its arguments, and parsing the text gives the tree. |
| YangSyntax.ReadQuoted | smo/scripts/ingest_yang_schema.py:96-107 | The loop over a quoted string returns its contents and the position after it. |
| YangSyntax.ReadWord | smo/scripts/ingest_yang_schema.py:109-113 | The loop over a word ends at white space, a brace or a semicolon and always moves. |
| YangSyntax.ReadToken | smo/scripts/ingest_yang_schema.py:84-113 | One round of the tokenizer's loop yields what the text from there on begins with. |
| YangSyntax.Tokens | smo/scripts/ingest_yang_schema.py:77-113 | The tokenizer's loop returns the token list the theorems speak of. |
| YangSyntax.Parser.Argument | smo/scripts/ingest_yang_schema.py:131-137 | The shared cursor moves past the argument and its `+` continuations. |
| YangSyntax.Parser.Statement | smo/scripts/ingest_yang_schema.py:129-145 | The shared cursor moves past one statement and its block. |
| YangSyntax.Parser.Statements | smo/scripts/ingest_yang_schema.py:125-146 | The shared cursor moves past a list of statements, up to an unquoted closing brace. |
| YangSyntax.ParseFile | smo/scripts/ingest_yang_schema.py:116-148 | Tokenizer and parser together return the tree the theorems speak of. |
| YangTypes.ChainEntry | smo/scripts/ingest_yang_schema.py:211-257 | An integer type behind at most ten typedefs keeps its most derived range; behind more it is `any`. |
| YangTypes.MostDerivedIsIntersection | smo/scripts/ingest_yang_schema.py:60-71 | When each range restricts the one it is laid on, the most derived one accepts exactly the intersection of all. |
| YangTypes.EmittedRange | smo/scripts/ingest_yang_schema.py:211-257 | The emitted intervals accept exactly the native bounds intersected with every range of the chain (section 9.2.4 of RFC 7950). |
| YangTypes.ExtremesOfBase | smo/scripts/ingest_yang_schema.py:246-251 | `min` and `max` stand for the least and the greatest value the base accepts. |
| YangTypes.WideningReplaces | smo/scripts/ingest_yang_schema.py:246-251 | As documented, a range that widens its base replaces it: a concrete type that then accepts more than its native bounds. |
| YangBundle.UnresolvedIsReachable | smo/scripts/ingest_yang_schema.py:277-284 | Nothing is called unresolved that cannot be reached. |
| YangBundle.ReachableIsUnresolved | smo/scripts/ingest_yang_schema.py:277-284 | The `seen` path never hides an unresolved `uses`: every path, loops included, is found. |
| YangBundle.UnresolvedIsExact | smo/scripts/ingest_yang_schema.py:259-291 | With cyclic groupings or not, the unresolved `uses` arguments are precisely the reachable ones nothing defines. |
| YangBundle.ExpansionKeepsAttributes | smo/scripts/ingest_yang_schema.py:259-291 | Attributes read along any path of groupings equal the last-definition-wins attributes of the tree with every `uses` expanded. |
| YangBundle.AttributesMeanExpansion | smo/scripts/ingest_yang_schema.py:259-291 | The same for a whole class node, and the expanded tree has no `uses` left (section 7.13 of RFC 7950). |
| YangClasses.CollectDefines | smo/scripts/ingest_yang_schema.py:185-202 | Collecting is defining, in document order, every grouping and typedef that stands where definitions may. |
| YangClasses.FirstDefinitionWins | smo/scripts/ingest_yang_schema.py:185-202 | The first definition of a name stays, so the input files shadow the library. |
| YangClasses.GapsAreExact | smo/scripts/ingest_yang_schema.py:259-310 | After `build`, `unresolved` holds precisely the `uses` arguments reachable from a class node whose grouping nothing defines. |
| YangLibrary.UsedIsExact | smo/scripts/ingest_yang_schema.py:204-291 | With cyclic groupings or not, the groupings and typedefs noted as used are precisely those reachable from a class node, through `uses` and the types of leaves. |
| YangLibrary.ReachableIsUsed | smo/scripts/ingest_yang_schema.py:204-291 | The `seen` path hides no use: every path, loops included, is found. |
| YangClasses.OriginIsFirst | smo/scripts/ingest_yang_schema.py:185-202 | A definition is traced to the library file it is first found in, and one that was known before is not. |
| YangClasses.LibraryIsExact | smo/scripts/ingest_yang_schema.py:204-208 | After `build`, `library_used` holds precisely the files of the library definitions reachable from a class node. |
| YangClasses.ClassesMeanExpansion | smo/scripts/ingest_yang_schema.py:293-310 | A class holds the last definition of each attribute over all its nodes, `uses` expanded. |
| YangClasses.Bundle.CollectFrom | smo/scripts/ingest_yang_schema.py:185-202 | The recursive collector fills the dictionaries of definitions and of their files as the theorems say. |
| YangClasses.Bundle.NoteTypedefs | smo/scripts/ingest_yang_schema.py:235-240 | Every typedef followed to tell a type is noted, and only those. |
| YangClasses.Bundle.AddModule | smo/scripts/ingest_yang_schema.py:176-179 | A module is registered and its definitions are collected. |
| YangClasses.Bundle.AddLibraryModule | smo/scripts/ingest_yang_schema.py:181-183 | A library module's definitions are collected with the file they come from; its nodes become no classes. |
| YangClasses.Bundle.AttributesOf | smo/scripts/ingest_yang_schema.py:259-291 | The recursive walk returns the attributes and adds to `unresolved` and `library_used` what the theorems say; it ends on cyclic groupings. |
| YangClasses.Bundle.ContributionOf | smo/scripts/ingest_yang_schema.py:267-290 | What one child contributes, by keyword. |
| YangClasses.Bundle.AddClass | smo/scripts/ingest_yang_schema.py:293-297 | A node's attributes are merged into the class of its name. |
| YangClasses.Bundle.Walk | smo/scripts/ingest_yang_schema.py:304-310 | Lists and containers, also inside augments, become classes in order. |
| YangClasses.Bundle.Build | smo/scripts/ingest_yang_schema.py:299-302 | Every registered module is walked. |
| CaRotation.CommandSettles | smo/scripts/mtls_certs.py:196-281 | From any settled directory every command, in or out of order, ends with each directory holding a certificate signed with the key of the CA it names, its own key and the whole bundle. |
| CaRotation.KindsStay | smo/scripts/mtls_certs.py:219-235 | No command changes whose certificate a directory holds; its kind, read back from the names in the certificate, changes exactly when a client's certificate for `localhost` is renewed, which makes it a server's. |
| CaRotation.NewKinds | smo/scripts/mtls_certs.py:196-243 | `init` makes server certificates for servers and client ones for the rest, each under its own name; `client` makes a client-only one whose only name is the client's. |
| CaRotation.PlainNames | smo/scripts/mtls_certs.py:238-243 | A client name without a slash, other than `..`, gets a directory of its own under `clients` where every later command finds it. |
| CaRotation.SlashNames | smo/scripts/mtls_certs.py:168-170 | A client name with a slash gets a directory one level too deep for any later command to find. |
| CaRotation.ParentNames | smo/scripts/mtls_certs.py:238-243 | `../x` is the directory of service `x`, and `..` the root itself. |
| CaRotation.UnlistedIsForgotten | smo/scripts/mtls_certs.py:168-170 | Every command leaves the three files of a directory it does not find as they are. |
| CaRotation.StrayClient | smo/scripts/mtls_certs.py:238-243 | Such a client's directory is sound when it is made and disturbs no other. |
| CaRotation.StrayDisagrees | smo/scripts/mtls_certs.py:246-281 | After one whole rotation it and every directory that is found reject each other. |
| CaRotation.ServerOverwritten | smo/scripts/mtls_certs.py:238-243 | `client ../x` puts a client-only certificate in the place of service `x`'s own. |
| CaRotation.RestartIsEnough | smo/scripts/mtls_certs.py:29-33 | Restarting everything after a command makes the services ready for the next one. |
| CaRotation.CommandFits | smo/scripts/mtls_certs.py:196-281 | The writes of a command and the running services share a set of CAs that issued every leaf and is in every bundle. |
| CaRotation.StepKeeps | smo/scripts/mtls_certs.py:140-193 | Each file write, reread, start, stop and command keeps the agreement invariant. |
| CaRotation.NeverDisagree | smo/scripts/mtls_certs.py:29-33 | Over any number of renewals, new clients, rotations and out-of-order phases, with writes, rereads and restarts interleaved at will, every service's leaf verifies against every service's bundle at every step. |
| CaRotation.FromNothing | smo/scripts/mtls_certs.py:246-253 | The same for every run that starts with an empty directory and `init`. |
| CaRotation.IdleIsSettled | smo/scripts/mtls_certs.py:173-193 | Between commands of any such run every directory is coherent and signed by the CA in use. |
| CaRotation.ReadyIsExact | smo/scripts/mtls_certs.py:249-251 | A phase is safe for the running services exactly when each trusts the coming CA and shows a leaf of a CA that stays; otherwise one more reread makes two disagree. |
| CaRotation.SkippedRestart | smo/scripts/mtls_certs.py:29-33 | Skipping the restart after `trust`: for any service that has not read the new bundle there is a run of `issue` in which two services disagree. |
| CaRotation.TornPair | smo/scripts/mtls_certs.py:181-183 | Between the two writes of a directory its certificate and key do not belong together. |
| CaRotation.Root.Put | smo/scripts/mtls_certs.py:140-152 | One file is replaced at once. |
| CaRotation.Root.PutFirst | smo/scripts/mtls_certs.py:213-215 | The loop of `init` writes the directory of every service, in order. |
| CaRotation.Root.PutLeaf | smo/scripts/mtls_certs.py:173-183 | Certificate, key and bundle are written in that order. |
| CaRotation.Root.PutBundles | smo/scripts/mtls_certs.py:260-262 | Every directory's bundle is written, in order. |
| CaRotation.Root.Init | smo/scripts/mtls_certs.py:196-216 | Keeps an existing CA; else writes key, CA and every leaf as planned. |
| CaRotation.Root.RenewAll | smo/scripts/mtls_certs.py:219-235 | Rewrites every directory from the CA in use, name and kind read back from the old certificate. |
| CaRotation.Root.Client | smo/scripts/mtls_certs.py:238-243 | Writes a client-only leaf under `clients/`. |
| CaRotation.Root.RotateTrust | smo/scripts/mtls_certs.py:254-263 | Writes the second CA and the joint bundle as planned, or nothing. |
| CaRotation.Root.RotateIssue | smo/scripts/mtls_certs.py:264-272 | Promotes the new CA and renews as planned, or writes nothing. |
| CaRotation.Root.RotateRetire | smo/scripts/mtls_certs.py:273-280 | Drops the old CA from disk and bundles as planned, or writes nothing. |
| SchemaCompat.ResolveLoop | smo/scripts/check_breaking_changes.py:38-45 | The loop follows at most twelve references. |
| SchemaCompat.RequestSound | smo/scripts/check_breaking_changes.py:79-108 | If the request comparison finds nothing, every value the old schema accepts is accepted by the new one, on the stated fragment, at every level. |
| SchemaCompat.ResponseSound | smo/scripts/check_breaking_changes.py:79-108 | If the response comparison finds nothing, every value the new schema allows has the types the old one promised, at every level, and the names it required wherever the new schema still requires them. |
| SchemaCompat.RequiredIsExact | smo/scripts/check_breaking_changes.py:100-103 | Every value of a new schema has the names the old one required exactly when the new one still requires them, for every schema that some object meets and that lists no whole values. |
| SchemaCompat.RequiredIsUnread | smo/scripts/check_breaking_changes.py:100-103 | What a new schema requires plays no part in a response comparison, whatever else it says. |
| SchemaCompat.SelfCompare | smo/scripts/check_breaking_changes.py:79-108 | A schema compared with itself is clean exactly when its types can be told and, for responses, its required names are declared. |
| SchemaCompat.AddedPropertiesAreNoBreak | smo/scripts/check_breaking_changes.py:20-20 | Optional properties added to any schema, referenced or not, typed or not, and for responses another list of values, report nothing the schema does not report against itself. |
| SchemaCompat.GrowthAddsNothing | smo/scripts/check_breaking_changes.py:20-20 | The same for properties added at every compared level at once, in the schema or behind its references, between two documents. |
| SchemaCompat.CleanComposes | smo/scripts/check_breaking_changes.py:79-108 | Two clean comparisons in a row make a clean comparison of the first release with the third, when the middle one drops nothing that comes back. |
| SchemaCompat.TypeSettles | smo/scripts/check_breaking_changes.py:48-58 | A deeper stack never changes the answer of `type_of`. |
| SchemaCompat.TypeEndsExactly | smo/scripts/check_breaking_changes.py:48-58 | `type_of` ends exactly when some rank falls at every step from a schema to an option it asks for, references followed. |
| SchemaCompat.RankSuffices | smo/scripts/check_breaking_changes.py:48-58 | Such a rank bounds the depth of the recursion. |
| SchemaCompat.OptionCycleNeverEnds | smo/scripts/check_breaking_changes.py:53-55 | A schema among its own options, at any distance, has no type at any stack depth: the recursion has no bound of its own. |
| SchemaCompat.SelfOptionNeverEnds | smo/scripts/check_breaking_changes.py:53-55 | The shortest such schema. |
| SchemaCompat.DeepChangesAreInvisible | smo/scripts/check_breaking_changes.py:82-83 | Nothing below the sixth level is compared: any two schemas under enough levels look the same. |
| SchemaCompat.NestedValid | smo/scripts/check_breaking_changes.py:82-83 | Such levels do not change what is valid below them, so the blindness is a real gap. |
| SchemaCompat.UnreadKeywords | smo/scripts/check_breaking_changes.py:79-108 | A pattern, items on one side only, and a type where nothing was said are not read: such a change reports nothing new, at any node. |
| SchemaCompat.AddedItemsAreExact | smo/scripts/check_breaking_changes.py:107-108 | New `items` are harmless exactly when they take every value, where the old node takes some array that is not empty. |
| SchemaCompat.AddedTypeIsExact | smo/scripts/check_breaking_changes.py:85-85 | A new type is harmless exactly when the node lists its values and those it takes have the type. |
| SchemaCompat.AddedPatternIsExact | smo/scripts/check_breaking_changes.py:61-76 | A new pattern is harmless exactly when every string the node lets through matches it. |
| SchemaCompat.AddedPropertyIsExact | smo/scripts/check_breaking_changes.py:104-106 | A new property is harmless to values that sent its name undeclared exactly when it takes every value, where the old node takes some object. |
| SchemaCompat.AddedPropertyIsSafe | smo/scripts/check_breaking_changes.py:104-106 | It is always harmless to values that send declared names only. |
| SchemaCompat.ChangedEnumIsExact | smo/scripts/check_breaking_changes.py:70-75 | Another enum is harmless exactly when it lists every value of the old one that the node takes. |
| SchemaCompat.AddedItemsEscape | smo/scripts/check_breaking_changes.py:107-108 | A concrete unreported pair: `items` given to an array that had none. |
| SchemaCompat.AddedTypeEscapes | smo/scripts/check_breaking_changes.py:85-85 | A concrete unreported pair: a type given to a schema that had none. |
| SchemaCompat.AddedPatternEscapes | smo/scripts/check_breaking_changes.py:61-76 | A new pattern is not reported and rejects old values. |
| SchemaCompat.UndeclaredEscapes | smo/scripts/check_breaking_changes.py:104-106 | A new property that takes an undeclared name is not reported and rejects old values. |
| SchemaCompat.TrueIsOne | smo/scripts/check_breaking_changes.py:70-73 | `True in [1]`: an enum can lose a boolean unreported when a number equal to it is there. |
| SchemaCompat.RequiredBecomesOptional | smo/scripts/check_breaking_changes.py:100-103 | A concrete property that becomes optional unreported, with a reply that then lacks it. |
| SpecCompat.LastParamWins | smo/scripts/check_breaking_changes.py:111-117 | The last parameter of a location and name counts, so the operation's own replace the path's. |
| SpecCompat.RequestsStay | smo/scripts/check_breaking_changes.py:140-154 | A clean operation still takes every request that sends only what the old release declared, parameters and body, when every media type of the body is kept with a schema that compares clean. |
| SpecCompat.PayloadStays | smo/scripts/check_breaking_changes.py:149-154 | The same for one payload of a media type that is still listed. |
| SpecCompat.MediaStayExactly | smo/scripts/check_breaking_changes.py:120-125 | After a clean body comparison the new release takes every old payload exactly when it lists every old media type, where those that stay are comparable and each old one has a payload. |
| SpecCompat.MovedMediaEscapes | smo/scripts/check_breaking_changes.py:120-125 | A body documented under another media type with the same schema is not reported, and no payload is taken by both releases. |
| SpecCompat.OtherMediaAreUnread | smo/scripts/check_breaking_changes.py:120-125 | With a JSON schema in place the other media types of a body play no part in the comparison. |
| SpecCompat.RepliesStay | smo/scripts/check_breaking_changes.py:155-165 | A clean operation still documents every success, and its JSON replies keep the promised types, and the promised names where they are still required. |
| SpecCompat.SilentReplyEscapes | smo/scripts/check_breaking_changes.py:162-165 | A success that no longer says anything about its JSON is not reported, whatever it promised. |
| SpecCompat.NoBreaksNoSurprises | smo/scripts/check_breaking_changes.py:128-167 | A release without a reported break has every old operation, and on the fragment takes every request each of them took. |
| SpecCompat.SpecSelf | smo/scripts/check_breaking_changes.py:128-167 | A document compared with itself is clean exactly when every operation is regular. |
| SpecCompat.AdditionsAreNoBreaks | smo/scripts/check_breaking_changes.py:20-20 | Adding paths, operations, optional parameters, documented responses, and properties at every level of every schema reports nothing the old release does not report against itself. |
| SpecCompat.AddedPathsChangeNothing | smo/scripts/check_breaking_changes.py:20-20 | Adding paths, operations and responses alone reports exactly what the old release does against itself. |
| SpecCompat.ReleasesCompose | smo/scripts/check_breaking_changes.py:128-167 | Two clean upgrades in a row are one clean upgrade when the middle release bridges the outer two. |
| SpecCompat.StricterKeys | smo/scripts/check_breaking_changes.py:64-69 | The loop over one list of bounds finds exactly the stricter ones. |
| SpecCompat.Bounds | smo/scripts/check_breaking_changes.py:61-76 | The loops find exactly the changes the theorems speak of. |
| SpecCompat.CompareSchema | smo/scripts/check_breaking_changes.py:79-108 | The recursion adds exactly the findings the theorems speak of. |
| SpecCompat.ComparePropsLoop | smo/scripts/check_breaking_changes.py:104-106 | The loop over shared properties adds exactly theirs, in any order. |
| SpecCompat.CompareParams | smo/scripts/check_breaking_changes.py:143-148 | The loop over the new parameters. |
| SpecCompat.CompareReplies | smo/scripts/check_breaking_changes.py:155-165 | The loop over the old 2xx responses. |
| SpecCompat.CompareOperations | smo/scripts/check_breaking_changes.py:140-165 | The findings of one operation. |
| SpecCompat.CompareDocuments | smo/scripts/check_breaking_changes.py:128-167 | The loops over paths and methods return exactly the breaks the theorems speak of. |
| RetryPolicy.WaitIsDocumented | smo/sdk-go/retry.go:47-61 | In 64-bit arithmetic the wait before jitter is min(base * 2^(attempt-1), ceiling) for every attempt exactly when no doubling of the base lands in [2^62, ceiling). |
| RetryPolicy.SafeCeiling | smo/sdk-go/retry.go:52-58 | For ceilings up to 2^62 ns no doubling overflows. |
| RetryPolicy.Wait | smo/sdk-go/retry.go:47-70 | The wait is the capped Retry-After or a jittered value in [d/2, d], whichever is larger, never more than the ceiling or 30 s, and positive unless a doubling overflows. |
| RetryPolicy.Wrap | smo/sdk-go/retry.go:55-58 | `int64` arithmetic: exact in range, never above the true value of a sum that is not below the range, equal modulo 2^64. |
| RetryPolicy.ParseRetryAfter | smo/sdk-go/retry.go:84-91 | Whole positive seconds are exact up to the range of a duration. |
| Idempotency.StepKeeps | smo/shared/smo_shared/idempotency.py:126-176 | Every transaction of every attempt, crashes, waits and failed races included, keeps the books of a key: one owner at most, and a stored answer exactly when the command took effect and was finished. |
| Idempotency.AtMostOnce | smo/shared/smo_shared/idempotency.py:3-41 | Over every interleaving of attempts in which takeovers and removals find the key quiet, the command takes effect at most once, and all successful answers carry one status. |
| Idempotency.TakeOverIsExact | smo/shared/smo_shared/idempotency.py:132-144 | Taking over an old reservation is safe exactly when nobody who owned the key is still running and the command has not taken effect; otherwise a second effect follows. |
| Idempotency.PurgeIsExact | smo/shared/smo_shared/idempotency.py:119-123 | Removing an expired record is safe exactly in the same case. |
| Idempotency.LateFailureIsUnsafe | smo/shared/smo_shared/idempotency.py:150-153 | A route that raises after its own commit releases its reservation, so the command can take effect twice. |
| Idempotency.PromptRunsAreCalm | smo/shared/smo_shared/idempotency.py:23-41 | When no attempt runs longer than the timeout or dies between its commit and the stored answer, every takeover finds the key quiet. |
| Idempotency.PromptAtMostOnce | smo/shared/smo_shared/idempotency.py:3-41 | So in all such runs, with crashes anywhere else, the command takes effect at most once. |
| Idempotency.RunsAlone | smo/shared/smo_shared/idempotency.py:156-198 | An attempt on its own reserves a free key, runs its route and stores what it returns, whatever the status. |
| Idempotency.RepeatsAlone | smo/shared/smo_shared/idempotency.py:117-133 | A repeat is answered from the record without another effect, and a different request under the same key is refused. |
| Idempotency.AbandonedRecovers | smo/shared/smo_shared/idempotency.py:25-27 | A reservation abandoned before it had any effect does not block its key: after the timeout a repeat runs the command. |
| CallEngine.DeliverIsARun | smo/shared/smo_shared/idempotency.py:171-198 | The one-step server of the call engine is a run of the record: one attempt on its own, with the same effect, stored answer and reply. |
| CallEngine.DeliverKeeps | smo/shared/smo_shared/idempotency.py:126-176 | A delivery to that server keeps one effect per stored key, undoes nothing, and reports success only for what took effect. |
| CallEngine.AtMostOnce | smo/shared/smo_shared/idempotency.py:3-41 | However often and with whatever outcomes keys are delivered to it, a command takes effect at most once and later answers equal the first. |
| CallEngine.World.Send | smo/sdk-go/client.go:207-222 | One send under any fate: lost before or after the server, answered by server or gateway, with late and foreign deliveries before it. |
| CallEngine.RoundTrip | smo/sdk-go/client.go:194-235 | At most `attempts` sends, all alike; waits sum to at most (attempts-1) times the longest wait; a retryable answer or failure comes back only after all attempts; an unsafe request takes effect at most once. |
| CallEngine.Do | smo/sdk-go/client.go:102-182 | For every schedule: at most 3 times `attempts` requests, all with one key and one of two tokens; a POST takes effect at most once, and exactly once when `Do` succeeds; a 401 is returned only after a renewed token, a lost race only after a repeat. |
| CallEngine.Call.Key | smo/sdk-go/client.go:127-133 | Every POST carries an Idempotency-Key. |
| TokenSource.FirstEndpoint | smo/sdk-go/auth.go:148-157 | The first named endpoint is used, and only when it ends in `/oauth2/token`. |
| TokenSource.AcquireKeeps | smo/sdk-go/auth.go:86-116 | An acquire caches nothing on failure; on success the token was granted to the identity kept; a pinned identity stays. |
| TokenSource.RefreshReplaces | smo/sdk-go/auth.go:76-83 | A renewal never answers the rejected token unless SME grants that one again. |
| TokenSource.AnswerIsAlive | smo/sdk-go/auth.go:66-73 | `get` answers the cached token only before its time is up, and otherwise one SME has just granted, with its time set from its lifetime. |
| TokenSource.TokenBelongs | smo/sdk-go/auth.go:49-116 | In every run of `get` and `refresh` by any callers, the cached token was granted to the current invoker, and a configured invoker is never replaced. |
| TokenSource.NeverOutlived | smo/sdk-go/auth.go:49-116 | After every run of any callers, a token answered from the cache was granted to the current invoker in one of the steps and has not outlived the lifetime SME reported then, overflow of the lifetime included. |
| TokenSource.UseIsBounded | smo/sdk-go/auth.go:110-114 | Wrap-around of the lifetime in nanoseconds never lengthens the use of a token. |
| TokenSource.DelayIsExact | smo/sdk-go/auth.go:110-114 | Counted from its issue, a token is never outlived exactly when it travelled no longer than 30 s and its life less a second. |
| TokenSource.OneGrant | smo/sdk-go/auth.go:75-83 | Any number of callers rejecting the same token cause at most one new grant. |
| TokenSource.Tokens.Get | smo/sdk-go/auth.go:66-73 | The method is the step the theorems speak of. |
| TokenSource.Tokens.Refresh | smo/sdk-go/auth.go:76-83 | The method is the step the theorems speak of. |
| TokenSource.Tokens.Acquire | smo/sdk-go/auth.go:86-116 | The method is the step the theorems speak of. |
| TokenSource.Tokens.Discover | smo/sdk-go/auth.go:123-158 | The loop over the endpoints sets the first usable one, once. |
| TokenSource.Tokens.Onboard | smo/sdk-go/auth.go:167-192 | A registration is kept only with both fields. |
| StateMachines.StateMachine.Add | smo/shared/smo_shared/statemachine.py:51-56 | A transition is appended. |
| StateMachines.StateMachine.Fire | smo/shared/smo_shared/statemachine.py:58-75 | The first matching transition whose guard passes wins; otherwise the transition is illegal. |
| StateMachines.BuildModelLifecycle | smo/aimgf/app/statemachine.py:119-158 | The table built by successive `add` calls answers every state and event with the documented edge and no other. |
| ModelLifecycle.HandleShape | smo/aimgf/app/main.py:134-169 | A request fires at most one legal event, with its audit row, its flags and its approval gate, or touches other columns only. |
| ModelLifecycle.EdgeEarns | smo/aimgf/app/statemachine.py:128-157 | An edge, its gate and what was seen in the cycle give everything the next state requires. |
| ModelLifecycle.Governed | smo/aimgf/app/models.py:32-62 | For any interleaving of replicas: the committed moves are a legal run from REGISTERED, what the state requires was committed after the latest CREATE_TRAINING, and the certification records are the audit's governance decisions in order. |
| ModelLifecycle.ApprovalsComeFirst | smo/aimgf/app/statemachine.py:95-101 | From VALIDATING on, training approval, and from EMULATING on, validation approval, was granted after the latest CREATE_TRAINING. |
| ModelLifecycle.CommitChains | smo/shared/smo_shared/versioning.py:1-19 | A commit keeps the audit table a chain exactly when it does not record a repeated approval over a row that has moved on. |
| ModelLifecycle.AuditIsARun | smo/aimgf/app/models.py:175-189 | Over a whole run, each audit row starts in the state where the one before ended exactly when no commit is a stale repeat. |
| ModelLifecycle.NeverHeals | smo/aimgf/app/models.py:175-189 | A broken audit table stays broken: rows are only appended. |
| ModelLifecycle.StaleRepeat | smo/shared/smo_shared/versioning.py:7-14 | Such a repeat happens: two replicas, one repeating an approval, break the chain, because no UPDATE carries the version. |
| ModelLifecycle.Transaction.FireModelEvent | smo/aimgf/app/main.py:134-169 | The method changes row, audit and records as the theorems say, or nothing. |
| ConstFold.FoldSound | smo/scripts/config_reference.py:89-147 | Whatever `fold` finds is what the expression evaluates to in every environment that agrees with the constants it names, where no `!r` or `!a` meets a string and no format spec is given. |
| ConstFold.FormattingMatters | smo/scripts/config_reference.py:106-113 | A whole f-string without format specs is folded right exactly when no `!r` or `!a` in it meets a string; `!s` and the empty spec are always right, `!r` is right on integers, booleans, floats, dicts and None. |
| ConstFold.CrashSound | smo/scripts/config_reference.py:89-147 | Where `fold` itself raises, on an unhashable key or a conversion's uncaught exception, so does the expression it folds. |
| ConstFold.Floor | smo/scripts/config_reference.py:130-131 | Floor division rounds toward minus infinity for both signs of the divisor. |
| ConstBinding.ModuleConstsSound | smo/scripts/config_reference.py:260-272 | After any module, every folded constant that is not stale is what its name is bound to. |
| ConstBinding.LastBindingDecides | smo/scripts/config_reference.py:260-272 | A name the module binds is not stale exactly when its last binding is an assignment that folds from names not stale by then. |
| ConstBinding.RunningModuleFolds | smo/scripts/config_reference.py:260-272 | A module that runs is folded to its end, where its assignments are readable. |
| ConstBinding.StaleConstant | smo/scripts/config_reference.py:260-272 | A statement the folder does not look at, or an assignment it cannot fold, keeps the constants right whatever it binds exactly when its name has not been folded before. |
| ConstBinding.SameSource | smo/scripts/config_reference.py:376-390 | The folder looks where Python looks, for every parameter it finds anything for, exactly when what the call unpacks or leaves over disturbs nothing: written arguments keep their places, no keyword goes by a positional-only name, and no parameter given its default is filled from a list or a mapping. |
| ConstBinding.PlainCall | smo/scripts/config_reference.py:376-390 | A call that unpacks nothing, with no more arguments than slots, is undisturbed. |
| ConstBinding.DefaultsLineUp | smo/scripts/config_reference.py:377-389 | The defaults found for regular parameters are Python's own exactly when none belongs to a positional-only one, for all wrappers with distinct defaults. |
| ConstBinding.HelperDefaultSound | smo/scripts/config_reference.py:370-391 | The folded default of a wrapper's read is what its default expression evaluates to inside that call, for every undisturbed call, unpacked arguments included, when the defaults line up. |
| ConstBinding.PositionalOnlyMisleads | smo/scripts/config_reference.py:378-389 | A concrete wrapper with more defaults than regular parameters, and the wrong default found for a call of it. |
| ConstBinding.FoldModule | smo/scripts/config_reference.py:260-272 | The loop over statements returns the constants the theorems speak of. |
| ConstBinding.FoldDefault | smo/scripts/config_reference.py:370-391 | The loop over parameters returns the default the theorems speak of. |
| DbRoles.ModuleExact | smo/scripts/db_roles.py:53-92 | Run from any state, a module's statements leave its role what they do not clear and what it has a right to, and no other role anything else: tables, schemas, sequences and what is created later. |
| DbRoles.TablesExact | smo/scripts/db_roles.py:135-155 | After a committed run each processed role's table and sequence privileges in the listed schemas are exactly its own, shared, read and `alembic_version` ones, from any grants; other roles keep theirs. |
| DbRoles.UnlistedExact | smo/scripts/db_roles.py:135-155 | Outside the listed schemas, and of default privileges everywhere, nothing is taken and only what a module wants is given. |
| DbRoles.RightsExact | smo/scripts/db_roles.py:135-155 | With a role of its own a module alone decides every privilege of that role, whatever else runs. |
| DbRoles.CommitsExactly | smo/scripts/db_roles.py:135-158 | Whether a run commits does not depend on the state it starts from: exactly when every module taken can be written as statements whose schemas and tables exist. |
| DbRoles.RunningAgain | smo/scripts/db_roles.py:20-21 | A second run commits and changes nothing at all, the owner's search path included. |
| DbRoles.OwnerPathIsSorted | smo/scripts/db_roles.py:122-131 | From the sorted list of schemas the owner's search path gets precisely the schemas of the manifest that exist, sorted. |
| DbRoles.OrderDoesNotMatter | smo/scripts/db_roles.py:135-155 | With distinct role names neither the order nor the repetition of the modules matters to any outcome, failure included. |
| DbRoles.SchemasExact | smo/scripts/db_roles.py:72-92 | A role ends with the use of the schemas it needs, and keeps on its own schema what it had there before. |
| DbRoles.NoCreateInPublic | smo/scripts/db_roles.py:17-17 | After a run nobody can create in `public` by the right of everyone, and a module's role can exactly if `public` is its own schema and it had the right before. |
| DbRoles.AccountsExact | smo/scripts/db_roles.py:11-13 | After a committed run each module's role exists, logs in with the password of its file, searches its schema before `public` and may connect, and the right of everyone to create in `public` is gone; other accounts are untouched. |
| DbRoles.Connection.Execute | smo/scripts/db_roles.py:152-153 | A statement runs or raises. |
| DbRoles.Connection.ExecuteAll | smo/scripts/db_roles.py:152-153 | The statements run in order up to the first that raises. |
| DbRoles.Connection.Run | smo/scripts/db_roles.py:120-158 | The owner's search path and the loop over modules reach the state the theorems speak of, or the transaction is rolled back. |
| DbRoles.OwnPath | smo/scripts/db_roles.py:125-131 | The loops that find the schemas of the owner's search path. |
| DbRoles.BuildRevokes | smo/scripts/db_roles.py:72-77 | The loop that builds the revokes. |

## Left out

- CLikeTokens.NormIgnoresBlanking: `\w` is any class of characters without white space, because the Unicode tables are not modelled.
- CLikeBlank.BlankIsIdempotent: is about `keep_strings=True`; with the strings blanked the inner quotes of a Java text block go too, and only lengths and line breaks are claimed (`CLikeSegments.LinesStay`).
- YangSyntax.PrintRoundTrip: the printer belongs to the model; the repository has none.
- YangTypes.EmittedRange: the text of a bound becomes an integer through a parameter, and decimal64 ranges stay text, because they are floating point.
- YangClasses.Bundle.Build: the newest revision is not tracked; a statement without an argument has the argument "".
- CaRotation.NeverDisagree: client names are those `CaRotation.PlainNames` allows or that lead back into a directory commands find; commands run to their end; a crash inside a phase, hand-deleted rotation files and `init --force`, which breaks agreement on purpose, are not covered. Validity periods and file permissions are not modelled.
- CLikeTokens.LineBreakIsExact: the comment text has no line break of its own.
- SpecCompat.NoBreaksNoSurprises: a media type is compared by name, without ranges or parameters, and a body of a type that is not listed is refused.
- SchemaCompat.RequestSound: is stated on the fragment `Comparable`; `anyOf`, `oneOf`, `allOf` and unknown keywords are given no meaning, and patterns are opaque. The lemmas named above show why each condition is there.
- SpecCompat.CompareDocuments: parameters, bodies and responses are taken with their own references already followed; findings are a set, without their order and wording; waivers and git are not part of this model.
- SchemaCompat.SelfCompare: a `type` is one name without a bar in it; a `type` list is not modelled.
- RetryPolicy.Wait: the random source is a parameter that answers less than its argument.
- Idempotency.AtMostOnce: one key of one module and caller; times are whole seconds, hashes of different requests differ, and a refused key format is left out.
- CallEngine.DeliverKeeps: is about the server between attempts, `CallEngine.DeliverIsARun`; attempts that overlap, and keys reused for another request, are the subject of `Idempotency`.
- CallEngine.AtMostOnce: the same.
- CallEngine.Do: the server answers each delivery in one step, which is a run of `Idempotency` without overlap; a repeat that meets a running attempt is one of the failures. Encoding and decoding of bodies and query strings are left out.
- TokenSource.TokenBelongs: each call is one step, because the lock is held throughout; the requests inside an acquire are given by their answers.
- TokenSource.OneGrant: assumes that SME grants a token different from the rejected one and that no cached token runs out in between.
- ModelLifecycle.Governed: one row; its creation by two replicas at once, the checks on the kind of a training run and the role of the caller are left out, and the runtime state machine is one of the other columns.
- ConstFold.FoldSound: floats and the conversions `str`, `int` and `float` are what Python says, the same on both sides; the three names are not shadowed.
- ConstFold.FormattingMatters: a format spec, and `!a` on a dict, show whatever Python says; nothing is claimed about them.
- ConstBinding.HelperDefaultSound: the wrapper does not reassign its parameters before the read; what a call unpacks is given by its values.
- DbRoles.TablesExact: a grant is a role, an object and a privilege; grantors, column privileges and role membership are not modelled.
- The YAML, Helm, Dockerfile, TypeScript, Go and Python normalisers: they depend on regular-expression backtracking or on parsers outside the repository.
- The browser, cluster and load scripts: input and output with no state worth proving.
- Report formatting, verdict thresholds, release tags, the runtime and inference machines and the group-retrain rule: they would only add easy members.
