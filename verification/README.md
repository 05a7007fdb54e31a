# moon, modelled in Dafny

This project models the core of Moon, a small configuration language written
in Go. The repository keeps three revisions of the engine side by side, and
they disagree in places. The model keeps them apart, one module per revision
file:

- the `package main` prototype: the lexer (`lex.go`), the parser (`parse.go`),
  the node parse and eval methods (`node.go`) and the scope map (`config.go`);
- the root `package moon` revision: documents and path lookup (`doc.go`),
  object lookup (`object.go`), the encoder (`emit.go`) and struct-tag
  requirements (`req.go`);
- the `lib/` revision: the parser and `Read` (`lib/parse.go`), the syntax tree
  and its two-scope evaluator (`lib/node.go`), the encoder (`lib/emit.go`),
  documents with value coercion (`lib/doc.go`), requirements (`lib/req.go`),
  long-option scanning (`lib/args.go`) and the scope map (`lib/config.go`).

Code that two revisions share word for word is defined once:

- `TokenStream` holds the parser's `next`/`peek`/`unread`/`ensureNext`.
- `Numbers` holds `strconv.ParseInt` in base 0, `Atoi` and `AppendInt`, plus the number node.
- `Paths` holds `seekValue` and the splitting of a path on `/`.
- `Requirements` holds `req.validate`, the tolerated-error filter and the gathering loop of `requirements`.

How Go's dynamic parts are modelled:

- Reflection becomes closed datatypes:
  - `Value` for resolved document values;
  - `GoValue` for what the encoders dispatch on;
  - `GoType` and `Dest` for assignment targets.
- Channels become sequences. The lexer is a pure state machine whose output is the token sequence it would send, with an explicit pushback stack.
- Go panics are outcomes. Each is a constructor of the result type: `Panicked`, `IndexPanic`, `GetPanicked`, `FieldAborted`, `ShortFlagPanic`.

Three things are parameters because the code leaves their order to the Go runtime:

- the order in which a map is iterated;
- the order of the `errors` map in `field2req`;
- the order of an object node's fields.

Float parsing, complex scanning and float formatting are also parameters (`Numerics`, `FloatFormat`).

Behaviour of the code that its own design notes describe differently; the model follows the code:

- Comments never reach the root node. Both parsers' `next` skips comment tokens, so the comment case of `rootNode.parse` is dead code (`ProtoSyntax.ParseHasNoComments`).
- An assignment needs `:`. A name followed by `=` is rejected, although the error text says "expected =" (`ProtoParse.ParseAssignment`).
- The shown lexer has no number, variable, bool, heredoc or duration states. The parsers consume those token kinds as given input.
- A path segment indexes a list whenever `strconv.Atoi` accepts it. That includes a sign, so `servers/-1` with a list under `servers` passes the bound check and then panics (see Findings). The `Get` members use the corrected lookup; the `GetAsWritten` members keep the panic.
- The bool checks of `req.validate` and `setValue` ask for the kind, so a type defined over bool counts as bool. In lib, `setBoolValue` then stores a plain bool, which reflect's Set refuses for such a type: a string source panics (`LibDoc.NamedBoolDestination`).
- In the lib revision, a `default` tag always makes `field2req` fail. Its destination has type `interface{}`, which `setValue` never finds equal to the value's type (`LibReq.DefaultTagRejected`).
- The lib encoder has no case for interfaces, maps or pointers. Any non-empty evaluated list or any map fails with "unhandled type" (`LibEmit.ListOfValuesUnhandled`).

## Model

| member | source | states |
|---|---|---|
| Lexer.Next | lex.go:93-110 | a pushed-back rune is returned before any input rune; at the end of input nothing changes; a rune read lowers the pending count by one and leaves the lexeme buffer alone |
| Lexer.Step | lex.go:161-281 | every state function either halts or moves to a state with fewer pending runes (or the same runes in a lower-ranked mode), sends at most one token, never an end-of-input token, and an error token only when halting |
| Lexer.StepRoot | lex.go:161-212 | lexRoot makes progress and sends at most one token, an error only as its last |
| Lexer.StepComment | lex.go:214-226 | lexComment makes progress and sends at most one token |
| Lexer.StepString | lex.go:228-249 | lexStringLiteral makes progress and sends at most one token, an error only when halting |
| Lexer.StepEscaped | lex.go:234-241 | after a backslash the next rune is consumed and lexing stays in the same literal, or end of input halts with an error |
| Lexer.StepIdent | lex.go:251-281 | lexName and lexType make progress and send at most one token |
| Lexer.RunWellFormed | lex.go:83-91 | from any state, the token sequence sent contains no end-of-input token and an error token only in last place |
| Lexer.LexWellFormed | lex.go:154-158 | every input lexes to such a sequence: an error stops lexing |
| Lexer.NextAhead | lex.go:93-98 | reading takes the first rune of the pending runes (pushed-back runes, last pushed first, then the input) |
| Lexer.UnreadAhead | lex.go:119-121 | unread puts the rune in front of the pending runes |
| Lexer.RunCongruent | lex.go:93-126 | two states with the same pending runes and buffer lex to the same tokens, however the runes are split between pushback and input |
| Lexer.PushbackReadFirst | lex.go:93-121 | lexing a state is lexing its pending runes as fresh input: pushback is replayed before the input |
| Lexer.ReadOne | lex.go:93-110 | one step that reads one input rune and continues is followed by lexing the rest of the input |
| Lexer.LexEmpty | lex.go:162-165 | the empty input yields no tokens |
| Lexer.LexSkipsSpace | lex.go:201-202 | white space at root emits nothing |
| Lexer.LexPunctuation | lex.go:166-197 | each of `= [ ] , { } :` at root emits a one-rune token of its own kind, then lexing goes on at root |
| Lexer.LexUnexpected | lex.go:209-210 | any other rune at root yields the "unexpected rune" error token and nothing after it |
| Lexer.RootOpensComment | lex.go:172-173 | `#` at root switches to the comment state with an empty buffer |
| Lexer.CommentRune | lex.go:222-224 | a rune other than newline is kept in the comment |
| Lexer.CommentNewline | lex.go:216-218 | a newline emits the comment, without the newline, and lexing resumes at root |
| Lexer.CommentEof | lex.go:219-221 | end of input emits the comment and stops |
| Lexer.CommentPrefix | lex.go:214-226 | a newline-free stretch of runes is kept in the comment, rune by rune |
| Lexer.LexComment | lex.go:172-226 | `#body\nrest` lexes to a comment token with text `body` (no `#`, no newline) followed by the tokens of `rest`; `#body` at end of input lexes to that token alone |
| Lexer.EscapeRune | lex.go:234-246 | the escaped form of a rune is one or two runes and ends with that rune |
| Lexer.StringPlainRune | lex.go:244-246 | a rune other than the delimiter and backslash is kept in the literal |
| Lexer.StringEscapedRune | lex.go:234-241 | a backslash keeps the rune after it verbatim, whatever it is |
| Lexer.StringRune | lex.go:228-249 | reading the escaped form of a rune keeps exactly that rune |
| Lexer.StringClose | lex.go:231-233 | the delimiter that opened the literal emits its text and lexing resumes at root |
| Lexer.StringEof | lex.go:236-243 | end of input inside a literal, also right after a backslash, yields exactly one error token |
| Lexer.StringPrefix | lex.go:228-249 | the escaped form of any text is read back as that text |
| Lexer.RootOpensString | lex.go:170-171 | `"` or a backquote at root opens a literal ended by the same rune |
| Lexer.LexStringLiteral | lex.go:170-249 | a delimiter, the escaped form of `s` and the same delimiter lex to one string token with text `s`, delimiters excluded, followed by the tokens of the rest |
| Lexer.LexUnterminated | lex.go:236-243 | a literal cut off by the end of input, also right after a backslash, lexes to one error token |
| Lexer.IdentRune | lex.go:254-256 | letters, digits and `_` extend a name or type |
| Lexer.ReadAgain | lex.go:93-98 | a rune pushed back at root is lexed as if it were still input |
| Lexer.IdentStops | lex.go:260-263 | the first other rune emits the name or type and is pushed back for lexRoot |
| Lexer.IdentEnd | lex.go:257-264 | at a boundary the name or type is emitted and the rest is lexed from root, the boundary rune included |
| Lexer.IdentPrefix | lex.go:251-281 | a run of name runes is kept in the lexeme |
| Lexer.RootOpensIdent | lex.go:203-208 | a lower-case initial starts a name, an upper-case initial a type |
| Lexer.LexIdent | lex.go:203-281 | an initial letter, name runes and a boundary lex to one name (lower-case initial) or type (upper-case initial) token holding the whole run, followed by the tokens of the rest |
| Quoting.Quote | emit.go:148-164 | the quoted form of a string starts and ends with `"` |
| Quoting.EscapeAsLexerReads | emit.go:148-164 | the encoder escapes exactly `\` and `"` as the lexer's string state reads them back |
| Quoting.QuoteLexes | emit.go:148-164 | the encoder's quoted string lexes back to one string token with the original text |
| Quoting.EscapePlain | emit.go:159-160 | a string without `\` or `"` is written verbatim |
| TokenStream.SkipComments | parse.go:43-50 | the fetch skips exactly a run of comment tokens |
| TokenStream.Next | parse.go:37-52 | next never returns a comment once none is pushed back; it consumes a token unless it returns end of input |
| TokenStream.Unread | parse.go:60-65 | unread adds one token to what is left |
| TokenStream.Peek | parse.go:54-58 | peek returns the token next would return |
| TokenStream.EnsureNext | parse.go:67-72 | ensureNext consumes nothing |
| TokenStream.FieldHead | parse.go:125-132 | a field head consumes the name and the separator |
| TokenStream.UnreadThenNext | parse.go:37-65 | a token pushed back is the next one returned, and the stream is as before |
| TokenStream.PeekConsumesNothing | parse.go:54-58 | after a peek, next returns the same token and stream as without it |
| TokenStream.EnsureNextConsumesNothing | parse.go:67-72 | ensureNext consumes nothing and fails exactly when the next kind differs, naming the context and both kinds |
| TokenStream.NextSkipsComments | parse.go:37-52 | with nothing pushed back, next returns the first non-comment input token, or end of input when only comments are left |
| TokenStream.CommentFreeAppend | parse.go:43-50 | a token list is comment-free exactly when both halves are |
| ProtoParse.Number | parse.go:149-175 | number consumes input when it succeeds |
| ProtoParse.ParseValue | parse.go:76-97 | parseValue consumes input when it succeeds and never leaves a comment pushed back |
| ProtoParse.ValueOfString | parse.go:84-85 | a string token yields its text |
| ProtoParse.ValueOfNumber | parse.go:86-88 | a number token is put back and read by number |
| ProtoParse.ValueOfList | parse.go:89-90 | `[` is consumed and the list rule runs from an empty list |
| ProtoParse.ValueOfObject | parse.go:91-92 | `{` is consumed and the object rule runs from an empty object |
| ProtoParse.ParseList | parse.go:99-118 | parseList consumes input when it succeeds |
| ProtoParse.ParseObject | parse.go:120-147 | parseObject consumes input when it succeeds |
| ProtoParse.ParseAssignment | node.go:155-173 | an assignment succeeds only after an object separator; `=` after the name is rejected |
| ProtoParse.ParseRoot | node.go:44-64 | end of input ends the root successfully; an error token, or any kind other than comment or name, fails it |
| ProtoSyntax.ValueRoundTrip | parse.go:76-97 | the tokens of any literal parse back to that literal's value and leave the rest of the input |
| ProtoSyntax.ListValueRoundTrip | parse.go:89-90 | the tokens of a list literal parse to the list of its items' values |
| ProtoSyntax.ObjectValueRoundTrip | parse.go:91-92 | the tokens of an object literal parse to its fields applied in order to an empty object |
| ProtoSyntax.ListRoundTrip | parse.go:99-118 | list items are appended in source order, and `]` ends the list; `[]` gives the empty list |
| ProtoSyntax.ObjectRoundTrip | parse.go:120-147 | object fields are stored in source order, and `}` ends the object |
| ProtoSyntax.NumberAgreesWithNode | node.go:240-292 | parser.number gives the same value as parsing then evaluating a number node |
| ProtoSyntax.ImaginaryAloneRejected | parse.go:150-153 | a standalone imaginary-number token is routed to number and rejected there |
| ProtoSyntax.ComplexMerged | parse.go:155-162 | a real-number token followed by an imaginary-number token becomes one complex value, or fails if the merged text does not scan |
| ProtoSyntax.IntBeforeFloat | parse.go:164-174 | integer parsing in base 0 is tried before float parsing, and a token neither accepts is an error |
| ProtoSyntax.RepeatedFieldOverwrites | parse.go:134-138 | a repeated field name keeps the later value |
| ProtoSyntax.AssignmentRoundTrip | node.go:155-173 | `:` then a value parses to that value |
| ProtoSyntax.RootRoundTrip | node.go:44-64 | the tokens of a list of bindings parse to one assignment child per binding, in source order |
| ProtoSyntax.DocumentRoundTrip | parse.go:29-34 | a whole document of bindings parses back to its assignments |
| ProtoSyntax.RootHasNoComments | node.go:52-53 | the root never gets a comment child: the comment case cannot be reached |
| ProtoSyntax.ParseHasNoComments | parse.go:43-50 | a parsed document holds no comment children |
| Numbers.ParseInt | parse.go:164-167 | an accepted integer text is non-empty and fits in 64 bits |
| Numbers.FormatNatDigits | emit.go:104-107 | decimal formatting gives digits with no sign and no leading zero whose value is the number |
| Numbers.ParseFormatNat | emit.go:104-107 | the unsigned parser reads a formatted natural number back, in base 0 and in base 10 |
| Numbers.FormatIntRoundTrip | emit.go:104-107 | every 64-bit integer written by the encoder is read back by ParseInt in base 0 and by Atoi |
| Numbers.NegativeRoundTrip | emit.go:104-107 | a negative 64-bit integer is written with a minus sign and read back |
| Numbers.NonNegativeRoundTrip | emit.go:104-107 | a non-negative 64-bit integer is written without a sign and read back |
| Numbers.ParseNumberNode | node.go:240-270 | a non-real token is rejected; an integer node holds the base-0 parse of the text; a float node only when that parse fails; a complex node only when an imaginary token follows |
| Numbers.EvalNumber | node.go:281-292 | the value has the kind of the node's tag |
| ProtoEval.EvalAssignment | node.go:189-195 | an existing name fails with a redeclaration error; otherwise exactly that name is added, bound to the value, and nothing else changes |
| ProtoEval.EvalRoot | node.go:97-104 | root eval only adds bindings and never changes an existing one |
| ProtoEval.EvalRootSucceeds | node.go:97-104 | root eval succeeds exactly when all assigned names are distinct and new, and then adds exactly the children's bindings |
| ProtoEval.EvalRootAppend | node.go:97-104 | children are evaluated left to right and evaluation stops at the first error |
| ProtoEval.RedeclarationKeepsFirst | node.go:189-192 | a second assignment to a name fails and keeps the first binding |
| LibEval.Get | lib/node.go:39-47 | lookup checks the public scope first, then the private scope, and finds nothing only when the name is in neither |
| LibEval.Eval | lib/node.go:260-510 | a string, number or bool node evaluates to its own value; a variable evaluates exactly when Get finds it, to the value Get finds, and otherwise fails as undefined; a list evaluates exactly when every item does, to the items' values in place; an object evaluates exactly when every field does, to a map whose keys are the field keys and whose entry for each key is the value of that key's field |
| LibEval.EvalList | lib/node.go:374-384 | list eval succeeds exactly when every element does and keeps each element's value in place; a failure is the error of one of the elements |
| LibEval.EvalFields | lib/node.go:438-448 | object eval succeeds exactly when every field does, gives a map with exactly the field keys, each holding its first field's value; a failure is the error of one of the fields |
| LibEval.EvalFieldsEntries | lib/node.go:438-448 | object eval gives each key the value of its own node |
| LibEval.EvalAssignment | lib/node.go:219-233 | the redeclaration check across both scopes comes before the value is evaluated; success writes to the private scope exactly when the binding is unexported and leaves the other scope unchanged |
| LibEval.EvalRoot | lib/node.go:126-133 | root eval keeps every binding it starts with, keeps the two scopes disjoint, and a root of comments only leaves the context as it is |
| LibEval.EvalRootAppend | lib/node.go:126-133 | evaluating the children `a + b` is evaluating `a` and then `b` in the context `a` leaves; an error in `a` is the error of the whole |
| LibEval.EvalRootStops | lib/node.go:126-133 | when the children before an assignment succeed and the assignment fails, its error is the root's error |
| LibEval.EvalRootScopes | lib/node.go:126-133 | from disjoint scopes, root eval keeps them disjoint; the public keys are exactly the starting ones plus the exported names, the private keys the starting ones plus the unexported names; each assigned name holds the value its node evaluates to in the context the children before it leave |
| LibEval.EvalRootKeys | lib/node.go:126-133 | the key sets of the two scopes after root eval are the starting ones plus the exported and the unexported names |
| LibEval.EvalRootValues | lib/node.go:219-233 | each assignment's name ends up holding the value its node evaluated to when its turn came |
| LibEval.EvalRootFresh | lib/node.go:219-225 | after a successful root eval no assigned name was bound at the start, and no name is assigned twice |
| LibEval.ForwardReferenceUndefined | lib/node.go:473-478 | a reference to a binding declared later fails as undefined |
| LibEval.BackReferenceResolves | lib/node.go:219-233 | a public binding may refer to an earlier private one, and only the public one is exported |
| LibEval.Read | lib/parse.go:17-27 | a parse error is returned as it is; an eval error is returned wrapped; a document holds exactly the public scope |
| LibEval.ReadKeepsPublic | lib/parse.go:17-27 | the document's keys are exactly the names of the exported assignments, and each holds the value its node evaluated to in the context the lines before it leave; an unexported name is never in it |
| LibParse.Find | lib/node.go:386-386 | a field is found exactly when its key is in the object |
| LibParse.Put | lib/node.go:409-409 | storing a field sets exactly that key, keeps keys distinct and leaves the other fields alone, so a duplicate key overwrites |
| LibParse.ParseString | lib/node.go:245-252 | a string node is read from a string token only, and holds its text |
| LibParse.ParseVariable | lib/node.go:458-465 | a variable node is read from a variable token only, and holds its name |
| LibParse.ParseBool | lib/node.go:487-500 | a bool token reads `true` as true and `false` as false; any other lexeme or kind is an error |
| LibParse.ParseValue | lib/parse.go:116-160 | parseValue consumes input when it succeeds |
| LibParse.ValueDispatch | lib/parse.go:116-160 | the peeked kind picks the rule: a string token gives a string node, a variable token a variable reference, a number token the number rule, `[` the list rule and `{` the object rule; error and end-of-input tokens and every unlisted kind are errors |
| LibParse.EmptyCollections | lib/parse.go:136-149 | `[` `]` gives an empty list node and `{` `}` an empty object node |
| LibParse.ParseList | lib/node.go:343-362 | listNode.parse consumes input when it succeeds |
| LibParse.ParseObject | lib/node.go:392-419 | objectNode.parse consumes input when it succeeds and keeps field keys distinct |
| LibParse.ParseAssignment | lib/node.go:184-202 | an assignment needs an object separator after the name; an error token, end of input or any other kind each fail with their own error |
| LibParse.ParseRoot | lib/node.go:68-94 | end of input ends the root; an error token, or any kind other than comment, name or variable, fails it |
| LibSyntax.LeafStep | lib/parse.go:124-155 | a string token parses to a string node of its text and a variable token to a variable node of its name |
| LibSyntax.IntStep | lib/node.go:283-313 | the decimal text of a 64-bit integer, followed by a token that cannot continue a number, parses to that integer's number node |
| LibSyntax.ValueRoundTrip | lib/parse.go:116-160 | the tokens of any literal, followed by tokens that cannot continue a number, parse back to the literal's tree and stop before those tokens |
| LibSyntax.ListValueRoundTrip | lib/parse.go:136-142 | a list literal parses to a list node of its elements' trees in order |
| LibSyntax.ObjectValueRoundTrip | lib/parse.go:143-149 | an object literal parses to the object node that storing its fields with Put one after another gives |
| LibSyntax.ListRoundTrip | lib/node.go:343-362 | listNode.parse appends each element's tree, in order, and stops after `]` |
| LibSyntax.ObjectRoundTrip | lib/node.go:392-419 | objectNode.parse stores each field in turn with Put, and stops after `}` |
| LibSyntax.PutRepeated | lib/node.go:409-409 | storing the same key twice keeps one field, holding the later node |
| LibSyntax.RepeatedFieldOverwrites | lib/node.go:392-419 | an object literal naming a key twice parses to one field holding the later value |
| LibSyntax.AssignmentRoundTrip | lib/node.go:184-202 | after the name, an assignment reads `:` and the literal's tree and stops before the next line |
| LibSyntax.RootAssignName | lib/node.go:68-94 | at top level a name starts a public assignment and a variable an unexported one |
| LibSyntax.RootRoundTrip | lib/node.go:68-94 | the lines of a document are appended to the root's children as assignments, in source order |
| LibSyntax.DocumentRoundTrip | lib/parse.go:51-75 | parsing a document's tokens gives its assignments in order, each unexported exactly when its line starts with a variable |
| Config.HasKey | config.go:11-17 | a missing map has no keys; otherwise membership is reported |
| Config.Set | config.go:27-32 | set binds the key to the value and leaves every other key as it was |
| Config.SetUnique | config.go:19-25 | setUnique fails on a present key with "already defined" and otherwise behaves as set |
| Config.SetUniqueTwice | config.go:19-25 | a second setUnique of the same key fails and the first value stays |
| Config.SetCommutes | config.go:27-32 | setting two different keys gives the same map in either order |
| Config.SetUniqueCommutes | config.go:19-25 | inserting two new, different keys succeeds in either order with the same result |
| LibConfig.Get | lib/config.go:35-40 | Get returns nil for a missing map or key and the stored value otherwise |
| LibConfig.GetString | lib/config.go:42-52 | GetString returns a stored string and "" for anything else |
| LibConfig.SetThenGet | lib/config.go:28-52 | after set, Get returns the value, and GetString returns it if it is a string |
| Paths.Split | doc.go:96-96 | splitting on `/` gives at least one part and no part holds a `/` |
| Paths.JoinSplit | doc.go:96-96 | joining the parts with `/` gives back the path |
| Paths.SplitJoin | doc.go:96-96 | splitting the join of slash-free parts gives back the parts |
| Paths.AtoiRejectsName | doc.go:170-171 | a segment starting with a letter is a key, not an index |
| Paths.NoValueMessage | lib/doc.go:173-175 | NoValue's message ends with the failing segment |
| Paths.Step | doc.go:169-194 | an integer segment indexes a list within bounds; any other segment keys a map; a missing key yields NoValue with that segment |
| Paths.Seek | doc.go:164-200 | an empty path, and only it, fails as empty; a NoValue names one of the path's segments; an out-of-bounds error holds an index outside the list |
| Paths.SeekAppend | doc.go:180-199 | resolving a path is resolving its first segments and then the rest from the value found |
| Paths.SeekAsWritten | doc.go:176-179 | the only panic seekValue can reach is indexing with a negative number |
| Paths.NegativeIndexPanics | doc.go:176-179 | the segment `-1` on a list passes the bound check and panics; the corrected lookup reports it out of bounds |
| Paths.SeekCorrectsAsWritten | doc.go:176-179 | the corrected lookup agrees with the code everywhere except where the code panics |
| Documents.ValueView | doc.go:172-188 | a list value is indexed and a map value is keyed, with their own items |
| Documents.Marshal | doc.go:42-58 | an empty key order writes nothing |
| Documents.MarshalLines | doc.go:42-58 | MarshalMoon succeeds exactly when every entry encodes, and then writes one `key: value` line per entry; otherwise it fails with the error of a failing entry |
| RootDoc.Get | doc.go:90-112 | a nil document fails before lookup; a value is stored exactly when the path resolves, the destination is a pointer and the value is assignable to it |
| RootDoc.GetAsWritten | doc.go:90-112 | as the code is written: a nil document fails; a negative list index on the path panics; any other refused segment is the lookup error; a stored value is the one the path leads to |
| RootDoc.GetCorrectsAsWritten | doc.go:176-179 | Get agrees with the code except on a negative list index, which panics in the code and is out of bounds in Get |
| RootDoc.NegativeIndexGet | doc.go:176-179 | `key/-1` with a list under `key` panics in the code and is out of bounds in Get |
| RootDoc.GetTopLevel | doc.go:90-112 | a top-level key is read directly, and a missing one yields NoValue |
| RootDoc.GetIntoInterface | doc.go:108-110 | any non-nil value can be stored into an `interface{}` destination |
| RootDoc.ServersExample | doc.go:73-89 | `servers/1/host` reads field `host` of element 1 of list `servers` |
| RootDoc.ServersSeek | doc.go:86-89 | the path segments resolve through the list and the object |
| RootDoc.MarshalMoon | doc.go:42-58 | a nil document writes nothing |
| RootDoc.MarshalMoonLines | doc.go:42-58 | one `key: value` line per item, and any encode error aborts |
| LibDoc.SetBoolValue | lib/doc.go:101-114 | a string source gives false only for `false` and true for any other string; other sources fail |
| LibDoc.SetValue | lib/doc.go:87-99 | identical types assign directly; a destination of kind bool takes a string, and is left unset without error for other sources; a string into a type defined over bool panics; any other mismatch fails |
| LibDoc.NamedBoolDestination | lib/doc.go:87-112 | a destination of a type defined over bool takes the bool path: a string source panics in Set, any other source leaves it unset |
| LibDoc.Get | lib/doc.go:64-85 | a nil document fails; a resolved path is coerced by setValue; a failed lookup is returned |
| LibDoc.GetAsWritten | lib/doc.go:64-85 | as the code is written: a negative list index on the path panics; any other refused segment is the lookup error; a found value goes through setValue |
| LibDoc.GetCorrectsAsWritten | lib/doc.go:189-192 | Get agrees with the code except on a negative list index, which panics in the code and is out of bounds in Get |
| LibDoc.AgreesWithRoot | lib/doc.go:84-91 | when the types match, the lib Get behaves as the root revision's Get |
| LibDoc.InterfaceDestinationFails | lib/doc.go:87-98 | an `interface{}` destination fails in lib although the root revision stores the value |
| LibDoc.MarshalMoon | lib/doc.go:42-58 | a nil document writes nothing |
| LibDoc.MarshalMoonLines | lib/doc.go:42-58 | one `key: value` line per item, and any encode error aborts |
| LibDoc.MarshalRejectsLists | lib/doc.go:48-51 | a document holding a non-empty list cannot be marshalled by the lib encoder |
| ObjectDoc.View | object.go:227-243 | a List is indexed and an Object is keyed |
| ObjectDoc.Get | object.go:93-120 | a nil object fails before lookup; a found pointer is dereferenced before it is stored; a value is stored when Go would allow the assignment, including a List into an `[]interface{}` destination and back, and panics otherwise |
| ObjectDoc.GetAsWritten | object.go:93-120 | as the code is written: a negative List index on the path panics; any other refused segment is the lookup error; a stored value or dereferenced object is the one the path leads to |
| ObjectDoc.GetCorrectsAsWritten | object.go:231-234 | Get agrees with the code except on a negative List index, which panics in the code and is out of bounds in Get |
| ObjectDoc.GetPlain | object.go:116-118 | a found non-pointer value is stored as it is |
| ObjectDoc.GetDereferences | object.go:114-115 | a found object is stored as the object itself, and a destination of type `**Object` panics |
| ObjectDoc.GetListIntoSlice | object.go:116-118 | a found list is stored into an `[]interface{}` destination, and a plain list into a List destination |
| ObjectDoc.GetTopLevel | object.go:93-120 | a key missing from the object fails as NoValue; a present nil value panics; a value of a type the destination cannot take panics; otherwise an object is stored dereferenced and anything else as it is |
| ObjectDoc.SetType | object.go:114-118 | the type `Set` sees: `Object` for a dereferenced object, `List` for a list, and the value's own type otherwise |
| ObjectDoc.BrothersExample | object_test.go:109-141 | `brothers/1/name` reads the second element's name |
| ObjectDoc.BrothersSeek | object_test.go:109-141 | the path resolves through the list to the second object's field |
| ObjectDoc.EncodeValue | object.go:42-58 | a plain value is encoded by Encode, and an object by its own MarshalMoon |
| ObjectDoc.MarshalEntriesIsMarshal | object.go:42-58 | an object's MarshalMoon is the document line writer over its items |
| ObjectDoc.MarshalObjectLines | object.go:42-58 | one `key: value` line per item, and any encode error aborts |
| ObjectDoc.NestedObjectVerbatim | emit.go:213-224 | a nested object is written verbatim by its own MarshalMoon |
| GoValues.FromValue | emit.go:52-55 | a nil value is invalid, and no evaluated value is itself an interface |
| GoValues.AsInterface | emit.go:177-183 | a value stored in an interface is nil exactly when the value is nil |
| Encoding.Cat | emit.go:29-44 | output is written only while every part succeeds; the first failure is the result |
| Encoding.Enclose | emit.go:166-175 | brackets are written around successful output only |
| Encoding.CatAssoc | emit.go:29-44 | writing in stages does not depend on grouping |
| Emit.Encode | emit.go:47-224 | invalid values, nil pointers and nil interfaces write `null`; a non-nil pointer or interface writes what it points to; a Marshaler's bytes are written verbatim, or its error returned; bools, ints and strings have their text forms; a non-finite float panics; a map with non-string keys and any other kind fail |
| Emit.EncodeItemsJoins | emit.go:166-175 | a slice writes its elements' texts joined by single spaces when all encode, and otherwise fails with the first failing element's result |
| Emit.EncodePairsJoins | emit.go:124-203 | struct fields and map entries write `name: value` joined by single spaces when every value encodes |
| Emit.EmptyCollections | emit.go:124-175 | an empty slice writes `[]` and an empty struct or map writes `{}` |
| Emit.EncodeSliceText | emit.go:166-175 | a slice is written exactly when every element is, as `[`, the element texts joined by single spaces, `]`; otherwise it gives the first failing element's outcome |
| Emit.EncodeStructText | emit.go:124-139 | a struct is written exactly when every field is, as `{`, `name: value` per field in declaration order joined by single spaces, `}` |
| Emit.EncodeMapText | emit.go:185-203 | a string-keyed map is written exactly when every value is, as `{`, `key: value` per entry in iteration order joined by single spaces, `}` |
| LibEmit.Encode | lib/emit.go:43-157 | only bool, int, float, string, struct and slice kinds are dispatched; everything else fails as unhandled; nil writes `null` |
| LibEmit.EncodeItemsJoins | lib/emit.go:148-157 | a slice writes its elements joined by single spaces when all encode |
| LibEmit.EncodePairsJoins | lib/emit.go:106-121 | struct fields write `name: value` joined by single spaces exactly when every value encodes |
| LibEmit.EncodeSliceText | lib/emit.go:148-157 | a slice is written exactly when every element is, as `[`, the element texts joined by single spaces, `]` |
| LibEmit.EncodeStructText | lib/emit.go:106-121 | a struct is written exactly when every field is, as `{`, `name: value` per field joined by single spaces, `}` |
| LibEmit.ListOfValuesUnhandled | lib/emit.go:55-73 | a non-empty evaluated list fails as an unhandled interface kind |
| LibEmit.MapOfValuesUnhandled | lib/emit.go:55-73 | an evaluated map fails as an unhandled map kind |
| LibEmit.AgreesWithRoot | lib/emit.go:55-73 | on values the lib encoder dispatches, it writes what the root encoder writes |
| LibEmit.ItemsAgree | lib/emit.go:148-157 | slices of such values are written alike |
| LibEmit.PairsAgree | lib/emit.go:106-121 | structs of such values are written alike |
| Requirements.Validate | req.go:20-38 | a requirement is valid exactly when it is named, is not required with a type of kind bool, does not combine required with a default, and has a short flag of at most one rune; the checks fire in that order |
| Requirements.NamedBoolNotRequired | req.go:25-27 | a required field of a type defined over bool is refused like a bool field |
| Requirements.FirstError | req.go:78-85 | the first non-NoValue error in the iteration order is reported, and none exactly when every lookup is tolerated |
| Requirements.StringOr | req.go:66-71 | a stored string replaces the default and anything else keeps it |
| Requirements.BoolOr | req.go:68-68 | required is true exactly when true was stored |
| Requirements.Gather | req.go:101-112 | the map is built exactly when every field gives a requirement, keyed by field name; otherwise a failing field is reported |
| Requirements.GatherEntries | req.go:104-111 | each field's requirement is stored under its name |
| RootReq.KeyIsPlain | req.go:65-72 | every option name is a single top-level key |
| RootReq.OptionDest | req.go:65-72 | only `required` has a bool destination and only `default` an `interface{}` one |
| RootReq.Lookups | req.go:65-72 | all six option lookups are made, each with Object.Get into the option's destination |
| RootReq.FirstPanic | req.go:65-72 | the first lookup that panics, in the order of the literal, aborts field2req |
| RootReq.NoneFails | req.go:78-85 | when the filter finds nothing, every lookup was tolerated |
| RootReq.Decide | req.go:56-87 | field2req aborts exactly when a lookup panics and succeeds exactly when every lookup is tolerated; a stored option replaces its default; the long flag follows an overridden name |
| RootReq.LookupStores | object.go:93-120 | a lookup stores only a value its destination can hold |
| RootReq.Field2Req | req.go:50-88 | an unparsable tag fails the field; otherwise the lookups decide |
| RootReq.RequirementsOf | req.go:92-113 | a pointer or struct type is accepted and any other kind rejected; a pointer to a non-struct aborts; the requirements are keyed by field name |
| RootReq.PointerAndStructAgree | req.go:93-96 | a pointer to a struct gives the same requirements as the struct |
| RootReq.RequirementsEntries | req.go:104-111 | each field's requirement is stored under its name and keeps its type |
| RootReq.LookupPresent | object.go:93-120 | a present option is stored as the value it denotes if its destination can take it, and panics if it is nil or of another type |
| RootReq.AbsentOptionTolerated | object.go:93-120 | an absent option yields NoValue, which field2req tolerates |
| RootReq.DecideDefaults | req.go:56-60 | with nothing stored, name and long flag are the field name, and everything else is empty |
| RootReq.DefaultsToFieldName | req.go:56-60 | a tag that mentions no option gives the defaults |
| RootReq.LongFollowsName | req.go:74-76 | a name given without a long flag becomes the long flag too |
| RootReq.WrongTypePanics | req.go:65-72 | an option value that is nil or of a type its destination cannot take makes field2req abort |
| RootReq.Denoted | object.go:93-120 | a stored value becomes the value it denotes; nothing stored, failures and panics pass through |
| RootReq.PanicAborts | req.go:65-72 | whatever the order the error map is ranged in, a lookup that panics aborts field2req |
| RootReq.DefaultStored | req.go:65-72 | a non-nil `default` entry becomes the requirement's default |
| LibReq.KeyIsPlain | lib/req.go:67-75 | every option name is a single top-level key |
| LibReq.OptionDest | lib/req.go:67-75 | only `required` has a bool destination and only `default` an `interface{}` one |
| LibReq.Lookups | lib/req.go:67-75 | all seven option lookups are made |
| LibReq.FirstPanic | lib/req.go:67-75 | the first lookup that panics, in the order of the literal, aborts field2req |
| LibReq.NoneFails | lib/req.go:81-88 | when the filter finds nothing, every lookup was tolerated |
| LibReq.ValidateAgrees | lib/req.go:21-39 | validation is the root revision's, with the same four ordered checks |
| LibReq.Decide | lib/req.go:57-90 | field2req aborts exactly when a lookup panics and succeeds exactly when every lookup is tolerated; stored options replace the defaults, cli_name included; the long flag follows an overridden name |
| LibReq.LookupStores | lib/doc.go:87-99 | a lookup stores only a value of its destination's type |
| LibReq.Field2Req | lib/req.go:51-91 | a tag that does not parse fails the field; otherwise the lookups decide |
| LibReq.RequirementsOf | lib/req.go:93-112 | a non-pointer destination is rejected; the requirements are keyed by field name |
| LibReq.RequirementsEntries | lib/req.go:103-110 | each field's requirement is stored under its name and keeps its type |
| LibReq.LookupPresent | lib/req.go:67-75 | a present option goes through setValue |
| LibReq.AbsentOptionTolerated | lib/req.go:81-88 | an absent option yields NoValue, which is tolerated |
| LibReq.DecideDefaults | lib/req.go:57-62 | with nothing stored, name, cli name and long flag are the field name |
| LibReq.DefaultsToFieldName | lib/req.go:57-62 | a tag that mentions no option gives the defaults |
| LibReq.LongFollowsName | lib/req.go:77-79 | a name given without a long flag becomes the long flag too |
| LibReq.DefaultTagRejected | lib/req.go:72-72 | any `default` option makes field2req fail |
| LibReq.WrongTypeRejected | lib/doc.go:96-97 | a non-bool option of the wrong type makes field2req fail |
| LibReq.RequiredFromString | lib/doc.go:101-110 | `required` given as a string is false only for `false` |
| LibArgs.SplitFirst | lib/args.go:44-46 | `--key=val` splits at the first `=`: the key holds no `=` and key, `=` and value rebuild the argument |
| LibArgs.SplitFirstUnique | lib/args.go:44-46 | the split finds exactly that key and value |
| LibArgs.Item | lib/args.go:71-71 | the stored value is the document's item for the key, or nil |
| LibArgs.Option | lib/args.go:56-71 | an unknown key is skipped; a bool option records true; otherwise the document `key: val` is read, stored under the key, and a read error fails the scan |
| LibArgs.Step | lib/args.go:30-76 | one pass of the loop moves forward and only adds known keys; `help` and short flags stop it with their panics; a missing value only for the last argument |
| LibArgs.Scan | lib/args.go:29-77 | the scan only records known keys, a bool key as true; a missing value names the last argument; an unparsable value names a non-bool key |
| LibArgs.ParseArgs | lib/args.go:11-79 | parseArgs scans from index 1 and returns only known keys, bool keys as true |
| LibArgs.StopsAtDoubleDash | lib/args.go:34-36 | `--` stops scanning |
| LibArgs.StopsAtBareArgument | lib/args.go:74-76 | the first argument without a leading `-` stops scanning |
| LibArgs.EqualsSplitsAtFirst | lib/args.go:44-46 | `--key=val` is the option `key` with value `val` |
| LibArgs.SeparateValue | lib/args.go:47-54 | `--key` takes the next argument as its value, and is an error when none follows |
| LibArgs.UnknownAndBoolKeys | lib/args.go:56-65 | an unknown key is skipped and a bool key records true, both still consuming the next argument |
| LibArgs.ArgsTestExample | lib/args_test.go:7-28 | `--host=example.com --port 9000` gives host and port |
| LibArgs.ExampleHost | lib/args_test.go:14-27 | `--host=example.com` records the host and moves to the next argument |
| LibArgs.ExamplePort | lib/args_test.go:14-27 | `--port 9000` records the port and ends the scan |

## Left out

- The goroutine and channel of `lex`/`lexString` and the reader error path of `lexer.next` (lex.go:83-91, 99-108): the lexer runs synchronously and its output is the token sequence it would send.
- Unicode tables: `IsSpace` is the exact White_Space set. `IsLower`, `IsUpper`, `IsLetter` and `IsDigit` are ASCII only. A rune is one `char`, so a rune count is a string length.
- Float and complex numerics: `strconv.ParseFloat`, `fmt.Sscan` into complex128 and `AppendFloat`. They are parameters, and floats are carried as 64-bit patterns. Only the non-finite guard is modelled.
- `ParseInt` in base 0 follows the classic Go grammar: sign, `0x` hex, leading-zero octal, decimal. The `0b`/`0o` prefixes and underscores are not modelled.
- The lexer of the lib revision (lib/lex.go) is not part of this model. `LibEval.Read` takes the token sequence, so `ReadString`, `ReadBytes` and `ReadFile` reduce to it.
- Map iteration order is a parameter. This covers `range` over a document, over an object or over a Go map in the encoder, and over field2req's `errors` map. No emission order is asserted beyond "the order given".
- The lib object node is a Go map. It is modelled as a list of distinct keys with overwrite in place, and its evaluation order is that list's order. The order only decides which error is reported first.
- Reflection-driven binding: `Fill`/`fillValue`, struct-tag parsing, and `reflect.Type` walking beyond the pointer/struct checks. A field's tag arrives already read, as a document or a parse error.
- `showHelp`, `writeHelpLine`, `os.Exit` and `log.Printf`. `help` and short flags end the scan with an outcome naming them.
- The `pretty` and `String` printers, and the JSON marshalling methods.
- Error message texts: each error is a constructor carrying the values its message prints.
- Integer width: Go's `int` is taken as 64 bits, and every parsed integer is checked to fit in 64 bits.
- Uint, array, chan, func and the other reflect kinds are one `GOther` constructor: both encoders reject them alike.
- `Object.Get` with a nil `*Object` inside a document is not modelled: objects are values, never nil pointers.
- A nil pointer passed to lib `requirements` is not modelled; a pointer always has an element type.
- `LibArgs.ParseArgs`: its first ensures restates the scan it runs; what it promises is stated by `LibArgs.Scan` and the lemmas after it.
- RootDoc.Get: resolves the path with the corrected bound check, so a negative list index is out of bounds where doc.go:176-179 panics; the code's behaviour is `RootDoc.GetAsWritten`.
- LibDoc.Get: likewise, where lib/doc.go:189-192 panics; the code's behaviour is `LibDoc.GetAsWritten`.
- ObjectDoc.Get: likewise, where object.go:231-234 panics; the code's behaviour is `ObjectDoc.GetAsWritten`.
- `Documents.Marshal`, `RootDoc.MarshalMoon`, `LibDoc.MarshalMoon`: their own ensures cover only the nil or empty case; the line-by-line content is stated by the `MarshalMoonLines` lemmas.
- `ProtoParse.ParseValue`, `ProtoParse.ParseList`, `ProtoParse.ParseObject`, `LibParse.ParseValue`, `LibParse.ParseList`, `LibParse.ParseObject`: their own ensures state only progress; what they return is stated by the round-trip lemmas of `ProtoSyntax` and `LibSyntax` and by `LibParse.ValueDispatch`. The round trips cover strings, 64-bit integers, variables, lists and objects; floats, imaginary numbers, bools and comments inside values are not generated.
- `RootReq.Lookup`: a stored option is kept as the Value it denotes (`ObjectDoc.Plain`), not with its Go type; a default that is a `List` or an `Object` is not told apart from the same data under another Go type.
- `LibEval.EvalList`, `LibEval.EvalFields`: which element's error is reported when several fail is left open (there is one of them); the object's order is a parameter.

## Findings

| source | as written | input that shows it | evidently intended | confidence | as-written member | corrected member |
|---|---|---|---|---|---|---|
| doc.go:176-179 (also lib/doc.go:189-192, object.go:231-234) | only `n >= len(l)` is checked before `l[n]` | `Get("servers/-1", &x)` on a document with a list under `servers`: `Atoi` accepts `-1`, the guard passes and `l[-1]` panics | a negative index is reported as out of bounds like any other | high, not executed | Paths.SeekAsWritten, Paths.NegativeIndexPanics, RootDoc.GetAsWritten, RootDoc.NegativeIndexGet, LibDoc.GetAsWritten, ObjectDoc.GetAsWritten | Paths.Seek, Paths.SeekCorrectsAsWritten, RootDoc.GetCorrectsAsWritten, LibDoc.GetCorrectsAsWritten, ObjectDoc.GetCorrectsAsWritten |
