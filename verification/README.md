# Models of the Crow web stack, the request-signing code, the thread pool and the callback list

This project models the parts of an image-recognition service that carry its hard logic: the embedded Crow web
server (router trie, HTTP/1.x push parser, JSON, mustache templates, timer queue), the SHA-1, HMAC, base64 and URL
coding behind its request signatures, its priority thread pool, and a callback list that may change while it is
iterated. It is written for Dafny 4.11; `dafny verify dfyconfig.toml` covers the whole project.

How the components are laid out, one module per file:

- **Router.** `RoutingTypes`, `TrieModel`, `TrieMerge`, `TrieRules`, `RuleMeaning`, `TrieSettling`, `Trie`, `Router`,
  `RouteArguments`. The trie is a class whose node vector is edited in place. Its meaning is a table from token sequences to
  rule indices; searching the trie, before and after optimising, answers like that table. `RuleMeaning` says what a match is
  without the search. The C library scanners for numbers are parameters that return an end behind the start.
- **HTTP parser.** `HttpModel` (one pass of the state switch), `HttpBytes` (what every pass keeps), `HttpMachine` (a
  machine that takes one byte at a time and reports data at once), `HttpMarks`, `HttpHandler` and `HttpExecute` (the real call, with marks into the
  caller's buffer, re-executed bytes and bulk body skips, proved to refine that machine), `HttpAsserts`,
  `HttpLengths`, `HttpConservation`,
  `HttpOrder`, `HttpFraming`, and `HttpMethods`, `HttpTargets`, `HttpRequestLine`, `HttpHeaders`, `HttpValues`, `HttpHeaderLines`,
  `HttpRoundTrip`, `HttpRequestObject` and `HttpPipeline`, which go from written requests, one behind the other and cut into
  any pieces, to the request objects. `HttpCharacters`, `HttpUris`, `HttpWords`, `HttpClient` and `HttpRefusals` hold the parser against the
  standards: their character classes, targets, headers and whole requests, and what is refused. Split invariance follows
  because the byte machine cannot see where a buffer ends.
- **Hashes.** `Sha1Spec` is the standard, `Sha1Constants` where its constants come from; `Csha1`, with `Sha1Rounds` and
  `Sha1Steps`, and `CrowSha1` are the two implementations; `HmacSha1` builds on the first and `HmacSpec` is what it computes.
- **JSON.** `JsonSpec` gives the printed form and a parser that leaves its text alone, `JsonRoundTrip` relates them,
  `JsonNumbers`, `JsonStrings` and `JsonGrammar` tie the parser to the grammar of RFC 8259, in both directions, `JsonPrinter` is
  the printer that appends to a string, and `JsonReader`, with `JsonUnescape` and `JsonInPlaceValues`, is the parser that edits
  its own buffer, proved to read the same values.
- **Mustache.** `MustacheModel` has templates and contexts, `MustacheFlat` their flat form, `MustacheScan` cuts text into tags with
  delimiters that may change, `MustacheTrim` removes the lines of lone tags, and `MustacheParse` goes from tags to flat actions and to
  blocks. `MustacheMeaning` says what nested blocks print, with partials; `MustacheMachine` is the flat interpreter watched for a number
  of turns, on anything the parser lets through; `MustacheRuns` relates the two, `MustacheUnclosed` is about blocks left open, and
  `Mustache` goes from text to output. `MustacheLanguage`, `MustacheHtml` and `MustacheTexts` say what the parts of a template come to.
- **State machines and codecs.** `ThreadPool` and `ThreadPoolCalls`, `CallbackList` and `CallbackListRuns`, `TimerQueue`, `Base64`, `UrlCoding`, each
  with a module for its model or specification. `Common` holds shared types, and `Numerals` numbers as they are written.

Where a claim one might expect is false of the code, there is a lemma with an input that shows it, and the exact
condition under which it holds:

- Crow's SHA-1 writes only the low 32 bits of the bit length (`CrowSha1.ShortPadFails`); its padding is the standard one
  if and only if the bit length modulo 2^64 is below 2^32 (`CrowSha1.ShortPadIsPad`).
- A rule's 64-bit parameter tag wraps when the base-6 number of its parameters reaches 2^64, as for 25 parameters of type path
  (`RouteArguments.TagWraps`); the handler's argument types are right if and only if it does not (`RouteArguments.DecodesIffFits`).
- A rule with a slash behind a path parameter, such as /files/<path>/, is met by no URL (`Router.PathIsLast`), and the redirect from the form
  without the slash never arrives; the redirects of the other rules without numbers do (`Router.RedirectArrives`).
- The request object loses headers with an empty value (`HttpRequestObject.HeaderLost`) and the last trailer of a chunked
  request; a request comes back whole if and only if it has no trailers and no header before the last one has an empty value
  (`HttpRequestObject.RequestRoundTrip`).
- The template parser accepts blocks that are never closed, and rendering them need not end: plain tags with such a block behind
  them end if and only if there is no tag before it (`MustacheUnclosed.UnclosedNeverEnds`); the jumps of accepted tags all go
  forward if and only if the tags nest (`MustacheParse.ForwardIffNested`).
- The parser takes absolute URIs only with schemes of letters (`HttpUris.AbsoluteAccepted`), although RFC 3986 has digits, plus signs,
  hyphens and dots in them.
- The digit table of chunk sizes reads every byte from 128 on as the digit 0 (`HttpRefusals.SizeDigitsAre`).
- Versions such as 2.0 keep a connection open only with keep-alive, and close does not count where keep-alive is wanted
  (`HttpWords.PersistsAsStandard`).
- The JSON parser refuses 0e1 (`JsonNumbers.ScaledZeroRefused`) and takes numbers without digits behind a point or an exponent's sign; it
  takes a number of RFC 8259 if and only if it is no zero with an exponent right behind it (`JsonNumbers.StandardNumbers`).
- A `\u` escape is written in UTF-8 if and only if it is no surrogate (`JsonStrings.Utf8Decodes`); pairs of surrogates are not put
  together (`JsonStrings.PairIsNoCharacter`).
- One `CSHA1::Update` call goes wrong when pending bytes and length reach 2^32 (`Csha1.UpdateFits`), and only then.

## Model

| member | source | states |
|---|---|---|
| `RuleMeaning.ConsumeTakes` | src/crow_all.h:8067-8150 | A parameter is read exactly where it takes its text: a string up to the next slash or the end and not empty, a path to the end, and a number behind a character that can start one, with the value and the end that the C library reports. |
| `TrieModel.OneFragmentMatches` | src/crow_all.h:8152-8163 | At a node of a well-shaped trie at most one child fragment matches at a position, so the order in which the hash map is walked cannot matter. |
| `TrieMerge.JoinsDoNotCollide` | src/crow_all.h:8008-8020 | When an edge absorbs the edges below it, no joined fragment is another one or a prefix of it. |
| `TrieMerge.MergedShape` | src/crow_all.h:8008-8020 | Merging keeps fragments non-empty and prefix-free and every child's index above its parent's, and pushes the children of the merged node deeper, which is what makes the re-entry at the same node end. |
| `TrieMerge.MergeKeepsFind` | src/crow_all.h:7986-8029 | One merge leaves the result of `find`, rule index and captures, unchanged from every node and position of every URL. |
| `TrieRules.FindComplete` | src/crow_all.h:8044-8165 | If a rule's tokens lead to a node holding an index and consume the URL, `find` answers with that index or a smaller one. |
| `TrieRules.FindSound` | src/crow_all.h:8044-8165 | What `find` answers is the index of a rule whose tokens consume the URL, with exactly the captures those tokens push. |
| `TrieRules.TrieAnswers` | src/crow_all.h:8044-8222 | A trie that holds a rule table answers like the table: 0 if no rule consumes the whole URL, else the smallest matching index with that rule's captures. |
| `RuleMeaning.MatchesIffFilled` | src/crow_all.h:8044-8165 | A URL matches a rule if and only if it is the rule with such texts in place of its parameters, and the captures are then those of the texts, each in the list of its kind and in order. |
| `RuleMeaning.AnswersAgree` | src/crow_all.h:8044-8222 | So the answer for a URL is the least index of the rules that can be filled in to give it, with what that rule was filled with. |
| `RuleMeaning.WrittenUrlMatches` | src/crow_all.h:8126-8150 | A URL written from a rule without numbers and texts, strings that end at a slash or the end and a path that is the rest, matches and gives exactly these texts back. |
| `RuleMeaning.CapturesGiveUrl` | src/crow_all.h:8126-8150 | Conversely the captures of such a rule, put in place of its parameters, give the URL, and no string is empty or holds a slash. |
| `RuleMeaning.RuleTextReads` | src/crow_all.h:8167-8218 | A rule string is read as the characters and tags it was written from, each tag with the kind its name stands for. |
| `TrieRules.SetRuleHolds` | src/crow_all.h:8219-8221 | Writing an index at the node of a rule adds exactly that rule to the table. |
| `TrieRules.AddEdgeHolds` | src/crow_all.h:8191-8217 | A new edge and node change no rule of the table. |
| `TrieSettling.MergeOptimises` | src/crow_all.h:8008-8020 | A merge yields a well-shaped trie of the same size with the same `find`, and nodes already settled stay settled. |
| `Trie.Trie.Add` | src/crow_all.h:8167-8222 | Adds the rule's token sequence with its index, or fails and leaves everything alone when that sequence is already taken. |
| `Trie.Trie.NodeFor` | src/crow_all.h:8169-8218 | Walks and extends the trie along the tokens of a rule string; the node reached is the one for those tokens, and is blank if any node was new. |
| `Trie.Trie.AllChildrenSimple` | src/crow_all.h:7997-8006 | The merge test of `optimizeNode`: true exactly when the node is not settled. |
| `Trie.Trie.MergedChildren` | src/crow_all.h:8008-8017 | The new children are exactly the two-step joins of old children. |
| `Trie.Trie.OptimizeNode` | src/crow_all.h:7986-8029 | Optimising in place, with its re-entry at the same node, ends, keeps `find`, settles everything below the node, and changes nothing when all was settled already. |
| `Trie.Trie.OptimizeParams` | src/crow_all.h:7988-7994 | The parameter children are optimised first and nothing at or above the node changes. |
| `Trie.Trie.OptimizeChildren` | src/crow_all.h:8021-8028 | The children of a node that cannot merge are optimised and nothing at or above the node changes. |
| `Trie.Trie.Optimize` | src/crow_all.h:8031-8034 | The optimised trie serves the same rule table; a second pass changes nothing. |
| `Trie.Trie.Validate` | src/crow_all.h:8037-8042 | Fails exactly when the head is not simple; otherwise no rule is empty or starts with a parameter, and the trie is optimised. |
| `Trie.Trie.FindRule` | src/crow_all.h:8044-8165 | The recursive search computes the specification `Find`. |
| `Trie.Trie.TryParam` | src/crow_all.h:8067-8150 | One parameter edge: the better of the answer so far and what lies behind the parameter, captures pushed and popped. |
| `Trie.Trie.TryChildren` | src/crow_all.h:8152-8163 | The child edges: the better of the answer so far and what lies behind the one fragment that matches. |
| `Trie.Trie.Lookup` | src/crow_all.h:8044-8165 | Before and after optimising, the answer for every URL is the rule table's answer, and that of filling the rules in. |
| `Router.AnswerIsUnique` | src/crow_all.h:8316-8329 | When indices from 2 on are held by one rule each, the answer is unique and its captures are that rule's captures. |
| `Router.TrailingSlash` | src/crow_all.h:8321-8328 | Cutting the final slash off a rule string cuts exactly the last token. |
| `Router.Router.AddRule` | src/crow_all.h:8316-8329 | Registers the rule under a new index and, for a rule ending in a slash, the shorter rule under the redirect index; fails as `add` does. |
| `Router.RegisteredAdds` | src/crow_all.h:8316-8329 | A new rule gets its index, the form without its final slash the redirect index 1 unless it was taken, and no other rule changes; it fails exactly where one of the two was taken. |
| `Router.RedirectArrives` | src/crow_all.h:8355-8372 | The URL that a redirect sends to, with a slash more, meets the rule with the same captures if and only if the rule has no path parameter. |
| `Router.PathIsLast` | src/crow_all.h:8141-8150 | A rule with a slash behind a path parameter is met by no URL. |
| `RouteArguments.ComparisonsAgree` | src/crow_all.h:3380-3417 | `is_equ_n` and `strncmp` find a tag exactly where it stands in the rule. |
| `RouteArguments.TagsAgree` | src/crow_all.h:3478-3529 | The compile-time and the run-time parameter tag of every rule string are equal, errors included. |
| `RouteArguments.TagIsBase6` | src/crow_all.h:3487-3529 | The 64-bit tag of every rule is the base-6 number of its parameter kinds modulo 2^64. |
| `RouteArguments.TagOfText` | src/crow_all.h:3487-3529 | For a rule string as it is written the tag is the base-6 number of its tags, the first one lowest, with 1 to 5 for int, uint, float or double, str or string, and path, modulo 2^64. |
| `RouteArguments.TagOfRule` | src/crow_all.h:3487-3529 | The tag is exact if and only if that number is below 2^64. |
| `RouteArguments.TagFits` | src/crow_all.h:3487-3529 | It is for every rule with at most 24 parameters. |
| `RouteArguments.TagWraps` | src/crow_all.h:3487-3529 | It is not for 25 parameters of type path. |
| `RouteArguments.TagDecodes` | src/crow_all.h:3595-3607 | Decoding the base-6 number gives the parameter kinds from left to right. |
| `RouteArguments.SameKindsSameTag` | src/crow_all.h:3595-3607 | Two tags that decode to the same argument types never differ by a multiple of 2^64 other than 0. |
| `RouteArguments.DecodesIffFits` | src/crow_all.h:3487-3607 | The argument types decoded from a rule's tag are those of its parameters if and only if the tag fits 64 bits. |
| `RouteArguments.ArgumentsReadTheirCaptures` | src/crow_all.h:7503-7563 | Each handler argument reads a capture that is in range and belongs to its own parameter. |
| `RouteArguments.HandlerGetsItsCaptures` | src/crow_all.h:7503-7563 | For every rule whose tag fits 64 bits and every URL it matches, tag, decoded argument list and captures fit together. |
| `Sha1Rounds.SwapIsBigEndian` | src/Paas/SHA1.cpp:46-51 | The in-place byte swap of a little-endian load is the big-endian word. |
| `Sha1Rounds.MacroIsRound` | src/Paas/SHA1.cpp:56-61 | Each round macro, with rotated register names and rewritten Ch and Maj, is the shifting-register round of section 6.1.2 of FIPS 180-4. |
| `Sha1Constants.ConstantsAreRoots` | src/Paas/SHA1.cpp:57-61 | The four round constants are 2^30 times the square roots of 2, 3, 5 and 10, rounded down. |
| `Sha1Constants.InitialWords` | src/Paas/SHA1.cpp:78-82 | The initial words are the bytes 01 23 45 67 89 AB CD EF, the same falling, and F0 E1 D2 C3, in little-endian words. |
| `Sha1Constants.WordsAreBigEndian` | src/Paas/SHA1.cpp:46-51 | Words are read and written with their most significant byte first. |
| `Sha1Constants.NumbersAreBigEndian` | src/crow_all.h:511-514 | A 32-bit number is written in base 256 with its most significant digit first. |
| `Csha1.ScheduleWordIsW` | src/Paas/SHA1.cpp:53-54 | The 16-word circular schedule yields word t of the 80-word schedule. |
| `Csha1.CircularStep` | src/Paas/SHA1.cpp:53-54 | Overwriting slot t mod 16 keeps the last sixteen schedule words in place. |
| `Csha1.CounterAdds` | src/Paas/SHA1.cpp:137-139 | The two-word counter stays 8 times the byte count modulo 2^64. |
| `Csha1.PaddingIndex` | src/Paas/SHA1.cpp:213-214 | The padding loop stops exactly after the number of zero bytes that section 5.1.1 of FIPS 180-4 asks for. |
| `Csha1.CSHA1.Reset` | src/Paas/SHA1.cpp:75-86 | After a reset the object is hashing the empty message, whatever it held before. |
| `Csha1.CSHA1.MacroRound` | src/Paas/SHA1.cpp:56-61 | One macro with its schedule step advances the rounds of the standard by one. |
| `Csha1.CSHA1.Transform` | src/Paas/SHA1.cpp:88-122 | On every state and block the unrolled transform is the compression of section 6.1.2 of FIPS 180-4. |
| `Csha1.CSHA1.Update` | src/Paas/SHA1.cpp:131-154 | Updating extends the message hashed so far by the data, across any block boundaries, for every number of bytes that with the pending ones is below 2^32; index sums are taken modulo 2^32. |
| `Csha1.UpdateFits` | src/Paas/SHA1.cpp:141-153 | The bytes fit where they are copied if and only if pending bytes and length sum to less than 2^32; beyond it the sum wraps, the block is not filled and the copy overruns the 64-byte buffer. |
| `Csha1.CSHA1.WholeBlocks` | src/Paas/SHA1.cpp:147-147 | The block loop, with its test modulo 2^32, takes exactly the whole blocks. |
| `Csha1.CSHA1.Final` | src/Paas/SHA1.cpp:202-232 | The digest is SHA-1 of everything that was added, and the padding loop ends. |
| `CrowSha1.ShortPadIsPad` | src/crow_all.h:491-517 | Writing only 32 bits of the length is the standard padding if and only if the bit length modulo 2^64 is below 2^32. |
| `CrowSha1.ShortPadFails` | src/crow_all.h:491-517 | Messages of 2^29 bytes are padded wrongly. |
| `CrowSha1.RoundAgrees` | src/crow_all.h:568-591 | The loop's round, with its own rotations and its own Ch and Maj, is the standard's round. |
| `CrowSha1.SHA1.Schedule` | src/crow_all.h:551-560 | The array holds the 80 schedule words of the block. |
| `CrowSha1.SHA1.ProcessBlock` | src/crow_all.h:550-598 | The 80-word loop is the same compression function. |
| `CrowSha1.SHA1.ProcessByte` | src/crow_all.h:468-476 | One byte extends the message hashed so far. |
| `CrowSha1.SHA1.ProcessBytes` | src/crow_all.h:477-490 | A range of bytes extends the message hashed so far. |
| `CrowSha1.SHA1.GetDigest` | src/crow_all.h:491-517 | The result is the hash of the message with the short padding, after the right number of zero bytes in each branch. |
| `CrowSha1.SHA1.GetDigestBytes` | src/crow_all.h:518-547 | The digest equals that of the other implementation whenever the message is shorter than 2^29 bytes. |
| `HmacSha1.CHMAC_SHA1.HMAC_SHA1` | src/Paas/HMAC_SHA1.cpp:11-64 | For every key and every text that fits the buffer the result is H((K xor opad) || H((K xor ipad) || text)) of section 2 of RFC 2104, whatever earlier calls left in the object. |
| `HmacSha1.CHMAC_SHA1.PrepareKey` | src/Paas/HMAC_SHA1.cpp:13-29 | Long keys are hashed and short ones padded with zeros to a block. |
| `HmacSha1.CHMAC_SHA1.constructor` | src/Paas/HMAC_SHA1.h:31-36 | The scratch buffers have the sizes that bound the text, and they and the hash object are new. |
| `HmacSha1.SignBoth` | src/Paas/HMAC_SHA1.cpp:11-64 | One object signs two texts one after the other, each as if it were the first. |
| `HttpModel.ParseUrlChar` | src/crow_all.h:1249-1438 | The URL states are closed: the next state is a URL state or the dead state. |
| `HttpBytes.SwitchShape` | src/crow_all.h:1588-2816 | Every pass sets or reports only the mark its states allow, and re-executing a byte always moves to a state of lower rank. |
| `HttpBytes.SwitchedNameMatches` | src/crow_all.h:1888-1950 | The method is switched only to one whose name starts with all that was read. |
| `HttpBytes.SwitchKeepsInv` | src/crow_all.h:1588-2816 | Every pass keeps the parser invariant: method index, header state, chunk flag, header count and length are legal for the state. |
| `HttpMachine.FeedInv` | src/crow_all.h:1440-2848 | After every run of bytes the invariant holds, and a collecting state has its data last in the callbacks. |
| `HttpMachine.FeedSplit` | src/crow_all.h:1440-2848 | Feeding in two parts is feeding the whole. |
| `HttpMachine.FeedBody` | src/crow_all.h:2645-2679 | Body bytes up to the announced length are delivered whole and unchanged and end the body. |
| `HttpAsserts.NoAssertFires` | src/crow_all.h:2205-2311 | On every run of every input no assertion of the state switch fires. |
| `HttpAsserts.NewParserRuns` | src/crow_all.h:1440-2848 | This holds of all runs of a new parser. |
| `HttpMarks.PassSim` | src/crow_all.h:1016-1050 | One pass keeps the marks into the caller's buffer in step with the byte-at-a-time machine. |
| `HttpHandler.HandleJoined` | src/crow_all.h:6515-6587 | The request's URL, headers and body depend only on the callbacks with adjacent data joined. |
| `HttpExecute.HttpParser.ByteAt` | src/crow_all.h:1588-2816 | All passes over one byte, with the re-execution, do what the byte machine does. |
| `HttpExecute.HttpParser.BodyAt` | src/crow_all.h:2645-2679 | The bulk skip over body bytes does what the byte machine does one by one. |
| `HttpExecute.HttpParser.ReportLeftover` | src/crow_all.h:2828-2838 | The callbacks at the end of the buffer complete the trace, with at most one mark set. |
| `HttpExecute.HttpParser.Iterate` | src/crow_all.h:1566-2832 | One turn of the main loop does what the byte machine does, and on every run leaves at most one mark set. |
| `HttpExecute.HttpParser.Run` | src/crow_all.h:1543-2848 | On a non-empty buffer the parser and the joined callbacks are those of the byte machine, up to the byte count returned. |
| `HttpExecute.HttpParser.Execute` | src/crow_all.h:1440-2848 | The whole call, with the error state and the end of input; it takes all bytes without error exactly when the byte machine runs smoothly. |
| `HttpExecute.HttpParser.ExecutePieces` | src/crow_all.h:6595-6610 | Feeding pieces one after the other reaches the state of the joined bytes. |
| `HttpExecute.SplitInvariance` | src/crow_all.h:1440-2848 | What one call takes whole without error, any sequence of non-empty pieces takes to the same parser, the same joined callbacks and the same request. |
| `HttpOrder.CallbacksInOrder` | src/crow_all.h:1588-2838 | On every run the callbacks are a prefix of begin, URL, headers, headers-complete, body, trailers, complete, over and over. |
| `HttpMethods.AcceptedMethodIsItsName` | src/crow_all.h:1834-1958 | If a request's first word is accepted, it is the full name of the method recorded. |
| `HttpMethods.EveryMethodIsAccepted` | src/crow_all.h:1834-1958 | Every method's name followed by a blank is accepted as that method. |
| `HttpTargets.UrlLanguage` | src/crow_all.h:1249-1438 | The URL states accept exactly a grammar of origin, asterisk and absolute form, and of authority form for CONNECT. |
| `HttpTargets.TargetAccepted` | src/crow_all.h:1960-2031 | A request's target, before a blank or the end of the line, is accepted if and only if the grammar has it, and then it is reported unchanged. |
| `HttpCharacters.UrlCharacters` | src/crow_all.h:1249-1296 | Paths, queries and fragments are made of visible ASCII: the characters of RFC 3986, per cent signs, and ten more that the RFC leaves out. |
| `HttpCharacters.ServerCharacters` | src/crow_all.h:1191-1203 | The characters of an authority are those of section 3.2 of RFC 3986. |
| `HttpCharacters.TokenCharacters` | src/crow_all.h:1459-1492 | The token table has exactly the characters of section 3.2.6 of RFC 7230. |
| `HttpUris.OriginDecided` | src/crow_all.h:1249-1438 | A target behind a slash is refused if and only if it holds a control character, a DEL or a byte from 128 on. |
| `HttpUris.LocalReported` | src/crow_all.h:1249-1438 | Every path, query and fragment of sections 3.3 to 3.5 of RFC 3986, per cent escapes and all, is taken and reported unchanged. |
| `HttpUris.UrlEncodedReported` | src/crow_all.h:1249-1438 | So is what URL encoding writes behind a slash, for every string. |
| `HttpUris.AbsoluteAccepted` | src/crow_all.h:1323-1372 | An absolute URI of section 3 of RFC 3986 is accepted if and only if its scheme is of letters only. |
| `HttpUris.ServerAccepted` | src/crow_all.h:1351-1372 | CONNECT accepts every server with user, name or bracketed address, and port. |
| `HttpRequestLine.MethodHead` | src/crow_all.h:1834-1958 | Each method name with its blank starts a message of that method with flags and length cleared. |
| `HttpRequestLine.PartBytes` | src/crow_all.h:2067-2142 | Each number of the version, up to 999, is read as its value. |
| `HttpRequestLine.RequestLine` | src/crow_all.h:1834-2153 | A request line of any method, target and version, or none for HTTP/0.9, starts a message with exactly these. |
| `HttpHeaders.FieldTracks` | src/crow_all.h:2205-2311 | After every character of a header name the header state tells how much of which known name was read. |
| `HttpHeaders.NameLine` | src/crow_all.h:2155-2333 | A header name is reported as written, with the header state in step with its lower-cased text. |
| `HttpHeaders.Recognised` | src/crow_all.h:2205-2311 | A header is taken for Connection, Content-Length, Transfer-Encoding or Upgrade if and only if its lower-cased name is that header's. |
| `HttpValues.CharReads` | src/crow_all.h:2402-2497 | After every character of a value the header state tells how much of "chunked", "keep-alive" or "close" was read. |
| `HttpValues.FlagsRead` | src/crow_all.h:2507-2531 | The chunked flag is set if and only if a Transfer-Encoding value is the word in any case with nothing but blanks behind it, and likewise keep-alive and close for a Connection. |
| `HttpValues.FoldText` | src/crow_all.h:2350-2517 | A value that goes on in the next line is reported with that line's text, and whatever word it was is forgotten. |
| `HttpHeaderLines.HeaderLine` | src/crow_all.h:2155-2552 | A header line with any blanks before the value and any value, an empty one, an Upgrade's or one over several lines too, is reported as written and means for the parser exactly what its name and value say. |
| `HttpHeaderLines.NumberBytes` | src/crow_all.h:2374-2451 | A whole Content-Length value is taken if and only if it starts with a digit, goes on in digits and blanks and is not too large, and then the length is its number. |
| `HttpHeaderLines.FoldLines` | src/crow_all.h:2350-2517 | Further lines of a value are joined to it, and it loses its meaning. |
| `HttpHeaderLines.HeaderLines` | src/crow_all.h:2155-2552 | The same for any number of header lines. |
| `HttpWords.HeaderMeans` | src/crow_all.h:2205-2531 | Of all headers the parser acts on Content-Length, Transfer-Encoding: chunked, Upgrade with any value, and keep-alive and close of Connection and Proxy-Connection, whatever the case of names and words, and on no other. |
| `HttpWords.LengthIsNumber` | src/crow_all.h:2428-2451 | A Content-Length is read as the number that its digits write in base 10. |
| `HttpWords.SizeIsNumber` | src/crow_all.h:2693-2744 | A chunk size is read as the number that its digits write in base 16, in either case. |
| `HttpWords.LargestLength` | src/crow_all.h:2436-2440 | The largest Content-Length taken is 18446744073709551609, and the largest chunk size 2^64 - 17. |
| `HttpWords.PersistsAsStandard` | src/crow_all.h:2876-2892 | The connection stays open as section 6.3 of RFC 7230 says if and only if the version is 1.1 or another one with both numbers above 0, or keep-alive and close stand in a stated relation. |
| `HttpRefusals.ByteDecided` | src/crow_all.h:1566-2816 | In every state but a method name and a body, exactly which bytes are refused and with which error, over all looks at the byte. |
| `HttpRefusals.SizeDigitsAre` | src/crow_all.h:1494-1503 | The digit table as it is: the hexadecimal digits, and 0 for every byte from 128 on. |
| `HttpRefusals.ClosedStaysClosed` | src/crow_all.h:1588-1599 | Behind the last request of a connection only line ends are taken, and nothing is reported. |
| `HttpRoundTrip.HeadEnd` | src/crow_all.h:2554-2643 | The empty line completes the headers and starts the chunks, the body, the other protocol of an upgrade or the next message; behind trailers it completes the message. |
| `HttpRoundTrip.TrailerParses` | src/crow_all.h:2757-2771 | Trailers are reported like headers, count for the connection's future, and end the message. |
| `HttpRoundTrip.RequestParses` | src/crow_all.h:1440-2848 | A written request of any method and version, with headers, and a body in one piece or in chunks with trailers, makes exactly its callbacks in order and leaves the parser ready for the next one, or dead where it does not keep the connection open; the bytes still counted against the header limit are named. |
| `HttpRequestObject.HeaderHandled` | src/crow_all.h:6527-6560 | Whatever came before, the callbacks for a header keep the header before it if and only if that has a value. |
| `HttpRequestObject.KeptIsAll` | src/crow_all.h:6527-6570 | All headers are kept if and only if none before the last one has an empty value. |
| `HttpRequestObject.AllComeBack` | src/crow_all.h:6527-6570 | Headers and trailers all come back if and only if, besides, there are no trailers. |
| `HttpRequestObject.RequestHandled` | src/crow_all.h:6515-6587 | The callbacks of a written request build its target, its body, its headers with a value together with the last one, and its trailers with a value without the last one. |
| `HttpRequestObject.RequestRoundTrip` | src/crow_all.h:6512-6610 | A request written out, parsed and collected is the request itself if and only if it has no trailers and no header before the last one has an empty value; in any case its method, version, target, body and the headers that are not lost come back. |
| `HttpRequestObject.HeaderLost` | src/crow_all.h:6527-6545 | The request with the lines A: and B: x comes out with B alone. |
| `HttpClient.NamesAreVerbs` | src/crow_all.h:698-730 | The method with each number has the word of that number for its name. |
| `HttpClient.ClientIsServed` | src/crow_all.h:1440-2848 | Byte for byte: a request line, headers, and a body behind its decimal length or in chunks with hexadecimal sizes, as a client writes them, come out as target, path, headers and body, and the parser has the method and is ready for the next request. |
| `HttpPipeline.CompletedJoined` | src/crow_all.h:6576-6587 | The requests handed over do not depend on the pieces in which data was reported. |
| `HttpPipeline.RequestsParse` | src/crow_all.h:1440-2848 | Requests written one behind the other, each but the last keeping the connection open, are handed over in order, each as it would be alone. |
| `HttpPipeline.PlainFeed` | src/crow_all.h:2554-2618 | A run without an error that completes at most one head, of no upgrade, hands the connection over at no byte. |
| `HttpPipeline.RequestIsSmooth` | src/crow_all.h:1440-2848 | One call takes a whole request; only an upgrade's last byte hands the connection over. |
| `HttpPipeline.ServeRequests` | src/crow_all.h:6512-6610 | From the wire to the handler: any such sequence of requests, cut into any non-empty pieces and fed piece after piece, is taken whole, and the handler is given exactly these requests in order. |
| `HttpLengths.SwitchLength` | src/crow_all.h:2374-2451 | At every pass the parser's length is the number written: the digits of the last Content-Length value or of the chunk size, without wrapping. |
| `HttpConservation.BodyConserved` | src/crow_all.h:2602-2809 | On every run the body callbacks deliver exactly the input bytes of the bodies, and their number plus what is still owed is the sum of the Content-Length and chunk-size numbers written. |
| `HttpConservation.NothingOwed` | src/crow_all.h:2602-2809 | A new parser that stops between bodies has delivered exactly what was announced. |
| `HttpFraming.SizeLine` | src/crow_all.h:2693-2771 | A chunk-size line of ASCII hexadecimal digits, with any parameters, starts a chunk of that size, or the trailers for size zero, and is refused if and only if the number is above 2^64 - 17. |
| `HttpFraming.OneChunk` | src/crow_all.h:2693-2809 | A written chunk delivers its bytes and returns to the start of a chunk size. |
| `HttpFraming.ChunkedBody` | src/crow_all.h:2693-2809 | Any sequence of written chunks with the last one delivers the bytes joined and starts the trailers. |
| `HttpFraming.LengthDigits` | src/crow_all.h:2428-2451 | The text of a Content-Length is taken if and only if it is digits and blanks and its number is at most 18446744073709551609, and then the length is that number. |
| `HttpFraming.IdentityBody` | src/crow_all.h:2645-2679 | Exactly the announced bytes complete a body without chunks. |
| `HttpFraming.DecimalIsDecValue` | src/crow_all.h:2428-2451 | The numbers that conservation counts are the values of the digits written. |
| `HttpFraming.HexadecimalIsHexValue` | src/crow_all.h:2709-2744 | The same for the hexadecimal digits of a chunk size. |
| `JsonRoundTrip.UnescapeEscape` | src/crow_all.h:4112-4145 | Unescaping an escaped byte string gives it back. |
| `JsonRoundTrip.ScanFindsQuote` | src/crow_all.h:4792-4852 | The scan finds the quote behind an escaped string and none inside it. |
| `JsonRoundTrip.DumpParses` | src/crow_all.h:5469-5544 | Wherever a printed value stands in a text, parsing there gives the value and stops right behind it. |
| `JsonRoundTrip.ParseDump` | src/crow_all.h:5469-5544 | Parsing the printed text of every value of null, booleans, byte strings, lists and objects gives the value back. |
| `JsonNumbers.NumberReads` | src/crow_all.h:4894-5010 | A number of an optional minus, a whole part without leading zero, a fraction and an exponent is read up to its end wherever another character stands behind it. |
| `JsonNumbers.NumberScanned` | src/crow_all.h:4894-5010 | Whatever is read as a number is such a number, with no character behind it that could go on with it. |
| `JsonNumbers.StandardNumbers` | src/crow_all.h:4909-4984 | Of the numbers of section 6 of RFC 8259 exactly those are accepted that are not a zero with an exponent right behind it. |
| `JsonNumbers.ScaledZeroRefused` | src/crow_all.h:4980-4990 | A zero with an exponent right behind it, such as 0e1, is refused. |
| `JsonStrings.Utf8Decodes` | src/crow_all.h:4450-4465 | A code below 2^16 is written so that UTF-8, as section 3 of RFC 3629 has it, decodes it in its shortest form, if and only if it is no surrogate. |
| `JsonStrings.PairIsNoCharacter` | src/crow_all.h:4429-4468 | A pair of surrogate escapes does not come out as a character of UTF-8. |
| `JsonStrings.SimpleStands` | src/crow_all.h:4424-4431 | Each letter behind a backslash stands for the character that section 7 of RFC 8259 gives it. |
| `JsonStrings.WrittenStringReads` | src/crow_all.h:4792-4852 | A string written with any escapes, with digits in either case, is read as what they stand for. |
| `JsonStrings.StringRead` | src/crow_all.h:4792-4852 | What is read as a string was written so, and means what was read. |
| `JsonStrings.ByteIsWritten` | src/crow_all.h:4112-4145 | The printer escapes a byte if and only if it is a quote, a backslash or a control character. |
| `JsonStrings.EscapeIsStandard` | src/crow_all.h:4112-4145 | What it prints for a string is a string of RFC 8259 that means the string. |
| `JsonGrammar.WrittenTextParses` | src/crow_all.h:5128-5153 | Every text of the grammar of RFC 8259, with any blanks around its tokens, any escapes and any accepted number, is read as what it means. |
| `JsonGrammar.ParsedTextWasWritten` | src/crow_all.h:5128-5153 | Whatever is read is a text of that grammar up to the first NUL, in whose strings bare control characters may stand as well, and means what was read. |
| `JsonPrinter.EscapeText` | src/crow_all.h:4112-4145 | The loop appends the escaped string. |
| `JsonPrinter.DumpTo` | src/crow_all.h:5475-5536 | Appends the printed value, lists and objects with a comma before each entry but the first. |
| `JsonPrinter.DumpItemsTo` | src/crow_all.h:5497-5513 | The loop over a list's items. |
| `JsonPrinter.DumpMembersTo` | src/crow_all.h:5514-5534 | The loop over an object's members. |
| `JsonUnescape.HalfwayStep` | src/crow_all.h:4419-4472 | Each character or escape keeps the write position at or before the read position, and the part done with the part to do is the whole result. |
| `JsonUnescape.UnescapeInPlace` | src/crow_all.h:4415-4478 | Unescaping over the same buffer yields the unescaped text, touches only the string with the byte before and behind it, and does nothing when the flag byte is 0. |
| `JsonInPlaceValues.ViewFrame` | src/crow_all.h:4769-5153 | Edits outside a value's place do not change what it reads as. |
| `JsonInPlaceValues.ReadKeepsView` | src/crow_all.h:4480-4488 | Unescaping one string of a document leaves the whole document reading the same. |
| `JsonReader.Reader.DecodeString` | src/crow_all.h:4792-4852 | Reads what the pure parser reads; only bytes already read are edited. |
| `JsonReader.Reader.DecodeNumber` | src/crow_all.h:4894-5010 | The automaton ends where the pure scan ends. |
| `JsonReader.Reader.DecodeItems` | src/crow_all.h:4854-4892 | The list loop: the earlier items keep their value while later ones edit the buffer. |
| `JsonReader.Reader.DecodeKey` | src/crow_all.h:5085-5100 | A key is read, followed by its colon, and unescaped at once without touching text still to be parsed. |
| `JsonReader.Reader.DecodeMembers` | src/crow_all.h:5066-5126 | The object loop, with keys unescaped at once. |
| `JsonReader.Reader.DecodeValue` | src/crow_all.h:5012-5064 | The in-place parser succeeds exactly when the pure parser does, with the same value and end, and leaves the unparsed text as it was. |
| `JsonReader.Reader.Load` | src/crow_all.h:5128-5153 | Loading a text gives the value of the pure parser or fails with it; all parts of the value lie apart in the buffer and every string can be read. |
| `JsonReader.Reader.ReadString` | src/crow_all.h:4480-4488 | Reading a string gives its text and leaves the document's value as it was; a second call edits nothing. |
| `JsonReader.ReadTwice` | src/crow_all.h:4480-4488 | Two reads of a string agree. |
| `JsonReader.LoadPrinted` | src/crow_all.h:5128-5153 | Printing a value and loading the text in place gives the value back. |
| `MustacheModel.SplitMeans` | src/crow_all.h:5644-5655 | The parts of a dotted name hold no dot and joined with dots give the name. |
| `MustacheModel.HtmlIsSafe` | src/crow_all.h:5685-5701 | Escaped text holds no angle bracket, quote or slash. |
| `MustacheHtml.UnhtmlHtml` | src/crow_all.h:5685-5701 | Reading the character references of escaped text, as a browser does, gives the text back. |
| `MustacheHtml.EscapedOutputIsSafe` | src/crow_all.h:5703-5826 | If all tags of a template and its partials escape and none of their texts holds markup, what is printed holds none, whatever the strings of the context; for blocks left open too. |
| `MustacheTexts.ParsedOutputIsSafe` | src/crow_all.h:5703-5826 | The same for every context that was read from a JSON text. |
| `MustacheTexts.TagForms` | src/crow_all.h:5880-5992 | How the kinds of tags are written between the standard delimiters. |
| `MustacheTexts.OneTagPrints` | src/crow_all.h:5728-5748 | From text to output: a tag in two braces prints a string escaped, in three braces or with an ampersand as it is. |
| `MustacheLanguage.TagPrints` | src/crow_all.h:5728-5748 | What a tag prints for each kind of value, and where it throws. |
| `MustacheLanguage.FoundInnermost` | src/crow_all.h:5624-5683 | A name means the value in the innermost context that knows the whole path. |
| `MustacheLanguage.MemberIsFirst` | src/crow_all.h:5633-5640 | A member is found if and only if it is the first with its key. |
| `MustacheLanguage.PathUnwraps` | src/crow_all.h:5657-5677 | A dotted path leads through nested objects to the value inside. |
| `MustacheLanguage.SectionPrints` | src/crow_all.h:5778-5815 | A section prints its body for each item of a list, once for another value, and not for false, null, an empty list or an unknown name, each time with the value on the stack. |
| `MustacheLanguage.InvertedPrints` | src/crow_all.h:5749-5777 | An inverted section prints its body exactly where the section has nothing to print it for. |
| `MustacheLanguage.PartialPrints` | src/crow_all.h:5720-5727 | A partial prints what its template means in the same contexts, its lines indented by the blanks before it where it stands alone on its line, and not at all elsewhere. |
| `MustacheLanguage.LinesAreIndented` | src/crow_all.h:5827-5840 | Indentation puts the blanks before every line but the first, and not behind the last line end of a template. |
| `Mustache.FindContext` | src/crow_all.h:5624-5683 | The search through the stack gives the innermost context that knows the whole dotted path. |
| `Mustache.SplitName` | src/crow_all.h:5644-5655 | The dot positions cut the name into its parts. |
| `Mustache.EscapeHtml` | src/crow_all.h:5685-5701 | Appends the escaped text. |
| `MustacheParse.RunPieces` | src/crow_all.h:5864-5946 | The parser's loop over the tags of a template appends its flat actions, every opener knowing its closing action, and leaves the open blocks as they were. |
| `MustacheParse.NestPieces` | src/crow_all.h:5864-5946 | Recursive descent over a template's tags gives the template back. |
| `MustacheParse.ParseIsNest` | src/crow_all.h:5864-5946 | The parser with its stack of positions accepts the tags and closes every block if and only if they nest, and then it has the flat form of the nested blocks. |
| `MustacheParse.ForwardIffNested` | src/crow_all.h:5864-5946 | Of the tags the parser accepts, exactly those that nest leave every opener with a jump forward. |
| `MustacheUnclosed.UnclosedIsAccepted` | src/crow_all.h:5864-5946 | Plain tags with a block behind them that is never closed are accepted, its opener still pointing at the first action. |
| `MustacheUnclosed.NeverEnds` | src/crow_all.h:5703-5826 | Where such a block is jumped over, a run from any of its actions is still going on after any number of turns. |
| `MustacheUnclosed.UnclosedNeverEnds` | src/crow_all.h:5703-5826 | Rendering plain tags that all print and an unclosed block that is jumped over ends if and only if no tag stands before the block. |
| `MustacheParse.FlatLays` | src/crow_all.h:5864-5946 | The flat form lies as the renderer's jumps expect it. |
| `Mustache.ParseTags` | src/crow_all.h:5864-5946 | The switch over the tags computes the fold that the other lemmas speak of; a mismatched closing tag fails. |
| `MustacheScan.ScanBody` | src/crow_all.h:5866-5999 | The search for delimiters, partials, the three-brace form, changes of delimiters and the trimming of names cut a body into texts and tags, or throw. |
| `MustacheScan.ChangeWritten` | src/crow_all.h:5959-5992 | A change of delimiters is read as it was written, whatever blanks stand in it. |
| `MustacheScan.ScanWritten` | src/crow_all.h:5866-5999 | Scanning the text of written tags, in any of their forms, with any blanks and any changes of delimiters, gives back the tags and the texts between them. |
| `MustacheScan.TemplateRoundTrip` | src/crow_all.h:5864-5999 | A template of nested blocks written out, scanned and nested is the template. |
| `MustacheTrim.BeforeTag` | src/crow_all.h:6008-6024 | The blanks before a tag go if and only if nothing else stands before it on its line. |
| `MustacheTrim.TrimKeepsTags` | src/crow_all.h:6003-6054 | Removing the lines of lone tags leaves all tags as they were. |
| `MustacheTrim.TrimLines` | src/crow_all.h:6003-6054 | The loop from the last tag to the first removes the lines of lone tags and gives lone partials their indentation. |
| `MustacheLanguage.LoneTagIsTrimmed` | src/crow_all.h:6003-6054 | A tag that prints no value and stands alone on its line takes the line with it, and a partial keeps the blanks before it as its indentation. |
| `MustacheLanguage.LastLoneTagIsTrimmed` | src/crow_all.h:6003-6054 | The same for the last tag of a template. |
| `MustacheLanguage.OtherTagsStay` | src/crow_all.h:6003-6054 | A tag that prints a value, or has something else before it on its line, is left alone. |
| `MustacheMeaning.RunSame` | src/crow_all.h:5864-5946 | Matching the blocks does not depend on texts and indentations. |
| `MustacheMeaning.BlocksBeforeLines` | src/crow_all.h:5864-6054 | So it makes no difference whether blocks are matched before or after the lines of lone tags are removed. |
| `MustacheMachine.RunWithin` | src/crow_all.h:5864-5946 | The positions in the actions of accepted tags stay within the actions, for blocks left open too. |
| `MustacheMachine.RunsMore` | src/crow_all.h:5703-5826 | A run that has ended or thrown is not changed by watching it longer. |
| `MustacheRuns.EvalIsFront` | src/crow_all.h:5703-5826 | What a template prints is what its parts print, and its last text. |
| `MustacheRuns.FrontRuns` | src/crow_all.h:5703-5826 | A run over a template's flat actions reaches the template's end with the output of its parts, or throws where they fail. |
| `MustacheRuns.SectionRuns` | src/crow_all.h:5778-5815 | A block is jumped over, entered without a call, or run once for each item. |
| `MustacheRuns.EachRuns` | src/crow_all.h:5790-5799 | The calls for a list's items print the body once for each, and restore the stack. |
| `MustacheRuns.IncludedRuns` | src/crow_all.h:5720-5727 | A partial whose blocks are closed prints what they mean, with the same contexts and further indented. |
| `MustacheRuns.WholeRuns` | src/crow_all.h:5703-5826 | A run over the whole range of a template ends, with the output that its blocks mean and the stack as it was, or throws where that fails. |
| `Mustache.Renderer.RenderInternal` | src/crow_all.h:5703-5826 | On any actions the parser lets through, the loop with its calls, jumps, pushes and pops has the outcome, stack and output of the run, for any number of turns. |
| `Mustache.Renderer.Step` | src/crow_all.h:5710-5823 | One turn of the loop, for every kind of action. |
| `Mustache.Renderer.RenderFragment` | src/crow_all.h:5827-5840 | Appends a text, with blanks behind its line ends where lines are indented, but not behind the template's last one. |
| `Mustache.Renderer.RenderPartial` | src/crow_all.h:5720-5727 | Loads another template and renders it with the same stack into the same output, or throws where it does not parse. |
| `Mustache.Renderer.RenderEach` | src/crow_all.h:5790-5799 | A list's range is rendered once for every item, with the item on the stack. |
| `Mustache.Renderer.PrintTag` | src/crow_all.h:5728-5748 | A tag prints numbers and strings, nothing for an unknown name, and fails otherwise. |
| `Mustache.Load` | src/crow_all.h:5864-6056 | Cutting, trimming and matching a body gives the code that the lemmas speak of, or throws. |
| `Mustache.Render` | src/crow_all.h:5842-5862 | From a template's text and a context to the output, the exception, the use of an empty stack, or neither yet, for any number of turns and any template, with blocks left open too. |
| `Mustache.RendersMeaning` | src/crow_all.h:5703-6056 | A template whose blocks are all closed renders in the end to the meaning of its blocks, or throws where that fails. |
| `Mustache.WrittenRenders` | src/crow_all.h:5703-6056 | A template of nested blocks, written out in any form and with any delimiters, parsed and rendered, prints in the end what its blocks mean once the lines of its lone tags are gone. |
| `ThreadPool.NextFits` | src/Paas/ThreadPool.cpp:72-256 | How every step's effect on the mutexes, the queue and the list of workers goes with the places it joins. |
| `ThreadPool.LocksKept` | src/Paas/ThreadPool.cpp:143-256 | Each mutex is owned by exactly the thread whose place holds it. |
| `ThreadPool.TaskOwnerKept` | src/Paas/ThreadPool.cpp:143-214 | What the holder of the task mutex has checked (room in the queue, fewer workers than the maximum) still holds when it acts, although the workers change under the other mutex. |
| `ThreadPool.ThreadOwnerKept` | src/Paas/ThreadPool.cpp:72-101 | What the holder of the thread mutex has checked (more workers than the minimum) still holds when it erases itself. |
| `ThreadPool.BoundsKept` | src/Paas/ThreadPool.cpp:143-256 | The queue keeps to its limit, plain tasks leave the reserved slots alone, and the number of workers stays between minimum and maximum. |
| `ThreadPool.ConservedKept` | src/Paas/ThreadPool.cpp:143-243 | Added tasks are exactly the queued and the taken ones. |
| `ThreadPool.RosterKept` | src/Paas/ThreadPool.cpp:72-101 | The list of threads names every live worker once and nobody else. |
| `ThreadPool.StepInv` | src/Paas/ThreadPool.cpp:72-256 | Every atomic step of every thread keeps all of this. |
| `ThreadPool.EveryRunIsSafe` | src/Paas/ThreadPool.cpp:72-256 | All of this holds after every schedule of a started pool. |
| `ThreadPoolCalls.CallIsAccepted` | src/Paas/ThreadPool.cpp:143-214 | A call that finds room and is not disturbed is over after at most ten turns with the task queued, and with one worker more exactly under the growth test and below the maximum, if a thread can be had. |
| `ThreadPoolCalls.CallWaits` | src/Paas/ThreadPool.cpp:146-154 | A call that finds no room, which for a plain task leaves the reserved slots out, and meets nobody waits and changes nothing. |
| `ThreadPoolCalls.WorkerTakes` | src/Paas/ThreadPool.cpp:217-243 | A worker that finds tasks and is not disturbed takes one with the lowest priority number and no other. |
| `ThreadPoolCalls.WorkerWaits` | src/Paas/ThreadPool.cpp:217-228 | A worker that finds no task and meets nobody waits and changes nothing. |
| `ThreadPoolCalls.WorkerLeaves` | src/Paas/ThreadPool.cpp:72-134 | Behind a task a worker leaves the pool if and only if no task is queued, there are more workers than the minimum, and it is among the first 128 of the list; otherwise it goes on and nothing has changed. |
| `ThreadPoolCalls.EveryRunIsLevelled` | src/Paas/ThreadPool.cpp:157-158 | On every run a task added without a priority has the number 2, behind levels 0 and 1. |
| `ThreadPool.TakesInOrder` | src/Paas/ThreadPool.cpp:217-243 | While nothing is added, tasks are taken in the order of their priority numbers, all before those left in the queue. |
| `ThreadPool.OwnersGoOn` | src/Paas/ThreadPool.cpp:143-243 | The holder of the thread mutex can always move, and the holder of the task mutex too unless it waits for the thread mutex: the two never block each other. |
| `CallbackList.CallbackList.Add` | src/base/callback_list.h:106-110 | A callback is appended under a new node. |
| `CallbackList.CallbackList.Unsubscribe` | src/base/callback_list.h:86-94 | The node is nulled while an iterator is active and erased otherwise. |
| `CallbackList.CallbackList.Compact` | src/base/callback_list.h:178-192 | Exactly the live nodes stay, in order; the removal callback runs once if any was dropped. |
| `CallbackList.Iterator.constructor` | src/base/callback_list.h:128-132 | A new iterator stands on the first node, or at the end, and is counted. |
| `CallbackList.Iterator.Copy` | src/base/callback_list.h:134-138 | A copy stands where the original stands and is counted. |
| `CallbackList.Iterator.Close` | src/base/callback_list.h:140-144 | The last iterator to go compacts the list, and the removal callback runs once if that dropped a node. |
| `CallbackList.Iterator.GetNext` | src/base/callback_list.h:146-156 | Skips nulled nodes and moves past the one returned. |
| `CallbackListRuns.StepInv` | src/base/callback_list.h:86-192 | Every operation keeps: live nodes are the subscriptions in order, no iterator hangs on an erased node, and each iterator has returned every live node it walked over. |
| `CallbackListRuns.EveryRun` | src/base/callback_list.h:86-222 | This holds after every interleaving of registrations, removals and nested iterators. |
| `CallbackListRuns.NothingDangles` | src/base/callback_list.h:86-192 | Every subscription can end and every iterator can be moved, copied and closed in every reachable state. |
| `CallbackListRuns.ReturnsInOrder` | src/base/callback_list.h:146-156 | An iterator returns callbacks in the order of registration, none twice, and none that was unsubscribed before. |
| `CallbackListRuns.ReturnsAll` | src/base/callback_list.h:214-222 | An iterator that has no callback left has returned all that were registered before it began and are still subscribed. |
| `CallbackListRuns.AtRest` | src/base/callback_list.h:140-192 | Without an iterator there is no nulled node, and the list is exactly the subscriptions. |
| `TimerQueue.DumbTimerQueue.Add` | src/crow_all.h:4025-4032 | The key of a new timer is its number. |
| `TimerQueue.DumbTimerQueue.Cancel` | src/crow_all.h:4013-4023 | A key cancels its own timer only, and nothing once that timer was popped; the unsigned difference of the keys decides. |
| `TimerQueue.DumbTimerQueue.Process` | src/crow_all.h:4034-4054 | Fires exactly the pending timers that are a tick old, and nothing before an I/O service is set. |
| `TimerQueue.Popped` | src/crow_all.h:4040-4053 | Popping the front timer keeps the queue and the timers' fates in step. |
| `TimerQueue.Replay` | src/crow_all.h:4013-4054 | Over every run with a clock that does not go back, each timer meets the fate its own operations give it, and handlers run once each in the order of the timers. |
| `TimerModel.FatesAreDecided` | src/crow_all.h:4013-4054 | In every run a timer is cancelled, or run by the first processing at least five seconds after it was added, by whichever comes first. |
| `Base64Spec.DecodeEncode` | src/Paas/base64.cpp:15-92 | Decoding what was encoded, by section 4 of RFC 4648, gives every byte string back. |
| `Base64Spec.TableIs` | src/Paas/base64.cpp:3-13 | Each 6-bit value is written as its place in table 1 of RFC 4648, and the padding is an equals sign. |
| `Base64Spec.EncodedShape` | src/Paas/base64.cpp:15-55 | Four characters for every three bytes begun: characters of the table, and an equals sign at the end for each byte missing. |
| `Base64.MasksAreSextets` | src/Paas/base64.cpp:25-28 | The masks and shifts of all three encoders pick the four 6-bit values of a group. |
| `Base64.PaasEncode` | src/Paas/base64.cpp:15-55 | The byte-at-a-time encoder computes the encoding. |
| `Base64.PaasDecode` | src/Paas/base64.cpp:57-92 | The decoder computes the decoding, stopping at the first character outside the table. |
| `Base64.CrowEncode` | src/crow_all.h:3799-3833 | Crow's encoder produces the same text. |
| `Base64.JoinedBroken` | src/Paas/paas_common.cpp:33-70 | Taking the line breaks out of wrapped text gives the text. |
| `Base64.WrappedEncode` | src/Paas/paas_common.cpp:33-70 | The wrapped encoder breaks the text of the full groups behind every 76 characters, and without the breaks it is the same text. |
| `UrlSpec.DecodeAt` | src/Paas/paas_common.cpp:72-95 | Decoding the encoding of every byte string, before a delimiter or the end, gives the string back. |
| `UrlSpec.EncodedByte` | src/Paas/paas_common.cpp:72-95 | The unreserved characters of section 2.3 of RFC 3986 stay as they are, a blank becomes a plus sign, and every other byte a per cent sign with two capital digits. |
| `UrlSpec.PlainDecodes` | src/crow_all.h:143-169 | Decoding ends at an equals sign, a number sign, an ampersand or a NUL; other characters but plus and per cent signs stand for themselves. |
| `UrlSpec.EscapeDecodes` | src/crow_all.h:143-169 | A per cent sign with two digits in either case stands for their number, and without them ends the text. |
| `UrlCoding.UrlEncodeText` | src/Paas/paas_common.cpp:72-95 | The loop computes the encoding. |
| `UrlCoding.DecodeInPlace` | src/crow_all.h:143-169 | Decoding in place never writes past the read position; it stops at an end character or a broken escape and leaves a NUL there. |
| `UrlCoding.RoundTrip` | src/crow_all.h:143-169 | Encoding a string and decoding it in place returns its length and leaves the string. |

## Left out

- Response parsing, bodies read until the end of the input, pausing, callbacks that return non-zero and what follows an upgrade: the server parses requests only, with callbacks that return 0.
- Csha1.CSHA1.Transform: the 80 unrolled macro calls are written as a loop over groups of five, the period of the register names; a little-endian machine is modelled.
- Csha1.CSHA1.Final: states the digest; the state left behind is wiped and hashed once more in the source, so the object must be reset before it is used again, as its callers do.
- HttpHandler.HandleJoined: the header table is a sequence of pairs, and a string that was moved from is taken to be empty; query parameters are not modelled.
- HttpRequestObject.RequestRoundTrip: is about requests as a client writes them, lines ended by CR and LF; what the parser takes besides (lines ended by LF alone, header lines without a colon, more blanks or empty lines around the request line) is covered by the statements about all input, `HttpConservation.BodyConserved`, `HttpOrder.CallbacksInOrder` and `HttpExecute.SplitInvariance`.
- HttpPipeline.ServeRequests: bytes behind an upgrade belong to another protocol; an upgrade or a closing request can only be the last one.
- HttpFraming.SizeLine: is about ASCII digits; the source's digit table has 128 of its 256 entries written, so bytes from 128 on read as the digit 0, as in `HttpModel.Unhex` and in `HttpLengths.HexadecimalOf`.
- Trie.Trie.Add: requires every `<` to start a known tag, because the source's loop makes no progress otherwise.
- The C library's number scanners are parameters; overflow reporting through errno is part of whether they match.
- JSON numbers are kept as text: printing them goes through `%g` and reading them through floating-point casts. Memory ownership of `r_string`, copies of values and the growth of the item arrays are not modelled.
- JSON objects are sequences of members; the source prints them in the order of a hash map.
- JsonUnescape.UnescapeInPlace: requires a string that the parser accepted; only such strings reach it.
- MustacheTrim.TrimLines: a carriage return at the very end of a text is not joined with a delimiter behind it that itself starts with a line feed; the source then takes the two for a line end.
- Mustache.Load: cuts, trims and matches one after the other; the source cuts and matches in one loop and trims in the end, which `MustacheMeaning.BlocksBeforeLines` shows to make no difference.
- Mustache.Renderer.RenderInternal: is watched for a number of turns, because the source's loop need not end; `Mustache.RendersMeaning` says when it does.
- MustacheMeaning.Eval: is not known for partials deeper in each other than a given depth, or for partials with a block left open; files are a function from names to texts.
- Mustache.ParseTags: a closing tag without an open block is undefined behaviour in the source and a failure here.
- ThreadPool.EveryRunIsSafe: starts from a pool whose `start` has finished and covers runs up to `stop`; it needs the reserved slots to be at most the queue size, because otherwise the source's unsigned comparison admits everything. Sizes that the source reads without the mutex that guards them are atomic reads here. A task that itself adds a task is not modelled. No liveness is claimed.
- The heap inside the priority queue: any task that no other one beats may be on top.
- CallbackListRuns.EveryRun: `Notify` is an iterator opened, moved and closed around whatever the callbacks do, and is not written as a method of its own; the removal callback is counted and assumed not to touch the list.
- TimerQueue.Replay: needs fewer than 2^31 timers and handlers that do not call the queue themselves.
- UrlCoding.DecodeInPlace: `qs_parse` and the table of pairs around it are not modelled.
- Sockets, asio connections, SSL, websockets, the image, model and Kafka code, random numbers, wall clocks and signature assembly.
- The other utilities under `src/base`: much easier than the components above.
