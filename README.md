# REST operation metadata and provider authentication

This project models two pieces of ServiceComb Java Chassis.

The first is `RestOperationMeta`, the REST view of one operation. When set up, `init` does four things:
- It picks the operation's `produces` list, falling back to the schema's.
- It composes the absolute path from the base path and the operation path.
- It fills the table of response encoders ("produce processors") and chooses the default one.
- It registers the parameters by position and by name.

At request time, `ensureFindProduceProcessor` reads an HTTP `Accept` header and picks the encoder for the response. This follows section 5.3.2 of RFC 7231 only loosely: `q` values are dropped, not ranked.

The second is `ProviderAuthHanlder.handle`. It lets a call through when its context holds a valid authentication token, and fails it with 401 otherwise.

Modules follow the source's structure:
- `RestDefinition` holds the `RestOperationMeta` class and its data. The class's fields are updated in place by its methods.
- `RestPath` holds the path composition.
- `AcceptNegotiation` holds the value rules behind accept-header parsing and selection.
- `Produce` holds the encoder registry and the tables built from it.
- `ProviderAuth` holds the handler, modelled as a function.
- `JavaStrings` and `Maps` hold the Java library behaviour the code relies on: `String.split` with a one-character separator, `String.trim`, and a run of `Map.put` calls, where the last put wins.
- `Wrappers` holds `Option`, `Result` and `Outcome`.

Java `null` is `None`. An `Error` that `init` throws is a `Fail` outcome. The state reached before the throw is kept: the path and the encoder table are already set when the parameter-count check fails.

Three behaviours of the code that are easy to misread:
- With no declared produces, `createProduceProcessors` returns before it assigns `defaultProcessor`, so the previous value (initially `null`) stays.
- The processor that `getDefaultOrFirstProcessor` falls back to is the first in `HashMap` iteration order. The model allows any value of the table.
- `splitAcceptTypes` keeps the first `;`-piece that contains a `/`, trimmed. A token with no such piece is kept whole and untrimmed.

## Model

| member | source | states |
|---|---|---|
| RestPath.ConcatPath | common-rest/src/main/java/io/servicecomb/common/rest/definition/RestOperationMeta.java:107-114 | the composed path starts and ends with `/` and has no two `/` in a row |
| RestPath.ConcatPathSegments | common-rest/src/main/java/io/servicecomb/common/rest/definition/RestOperationMeta.java:107-110 | the composed path's segments are the base path's segments followed by the operation path's |
| RestPath.NormalPathBySegments | common-rest/src/main/java/io/servicecomb/common/rest/definition/RestOperationMeta.java:107-110 | two normal paths with the same segments are equal, so the two facts above determine `concatPath` completely |
| RestPath.NullPathIsEmpty | common-rest/src/main/java/io/servicecomb/common/rest/definition/RestOperationMeta.java:112-114 | a null base or operation path composes exactly like `""` |
| RestPath.ConcatPathExample | common-rest/src/main/java/io/servicecomb/common/rest/definition/RestOperationMeta.java:107-110 | base `/a/` with operation path `/b` gives `/a/b/` |
| RestPath.CollapseProperties | common-rest/src/main/java/io/servicecomb/common/rest/definition/RestOperationMeta.java:109 | collapsing `/` runs in a string that starts and ends with `/` gives a normal path with the same segments |
| RestDefinition.CreatePathRegExp | common-rest/src/main/java/io/servicecomb/common/rest/definition/RestOperationMeta.java:133-143 | a null or empty path is an error; otherwise a compiled template when it compiles and `null` when it does not |
| RestDefinition.RestOperationMeta.SetAbsolutePath | common-rest/src/main/java/io/servicecomb/common/rest/definition/RestOperationMeta.java:120-123 | the path is recorded even when compiling it throws; the compiled form is updated only on success |
| RestDefinition.RestOperationMeta.Init | common-rest/src/main/java/io/servicecomb/common/rest/definition/RestOperationMeta.java:70-100 | produces falls back to the schema's; the absolute path is the composed path; the encoder table is built; a parameter-count mismatch fails with the path and registers no parameter; otherwise parameter `i` pairs swagger parameter `i` with type `i` at index `i`, the path builder gets the path and the name map, and the name index stays consistent |
| RestDefinition.RestOperationMeta.AddParams | common-rest/src/main/java/io/servicecomb/common/rest/definition/RestOperationMeta.java:91-97 | the loop appends exactly the built parameters in order and puts each under its name, keeping the name index consistent with the list |
| RestDefinition.RestOperationMeta.AddParam | common-rest/src/main/java/io/servicecomb/common/rest/definition/RestOperationMeta.java:185-188 | appends the parameter, files it under its name, and keeps the name index consistent with the list |
| RestDefinition.RestOperationMeta.GetParamByName | common-rest/src/main/java/io/servicecomb/common/rest/definition/RestOperationMeta.java:145-147 | the parameter filed under the name, `null` exactly when none is |
| RestDefinition.RestOperationMeta.ParamByNameIsLast | common-rest/src/main/java/io/servicecomb/common/rest/definition/RestOperationMeta.java:145-147 | with the name index consistent, a name finds the last registered parameter of that name, and nothing exactly when no parameter has it |
| RestDefinition.RestOperationMeta.GetParamByIndex | common-rest/src/main/java/io/servicecomb/common/rest/definition/RestOperationMeta.java:149-151 | the parameter at that position; an index outside the list is the out-of-bounds failure |
| RestDefinition.RestOperationMeta.CreateProduceProcessors | common-rest/src/main/java/io/servicecomb/common/rest/definition/RestOperationMeta.java:158-175 | with no declared produces, every manager processor is put under its name and the default is untouched; otherwise each recognised declared type is put with its encoder, unknown types are skipped, and the default is chosen as by `getDefaultOrFirstProcessor` |
| Produce.DeclaredTable | common-rest/src/main/java/io/servicecomb/common/rest/definition/RestOperationMeta.java:165-172 | with declared produces, the new keys are exactly the declared types the manager recognises, each mapped to the manager's encoder, and other entries are kept |
| Produce.NameTable | common-rest/src/main/java/io/servicecomb/common/rest/definition/RestOperationMeta.java:159-163 | with no declared produces, the keys are the processor names, and a name maps to the last processor carrying it |
| RestDefinition.RestOperationMeta.GetDefaultOrFirstProcessor | common-rest/src/main/java/io/servicecomb/common/rest/definition/RestOperationMeta.java:252-260 | the entry for the default type when present, else some value of the table, else `null` for an empty table |
| RestDefinition.RestOperationMeta.FindProduceProcessor | common-rest/src/main/java/io/servicecomb/common/rest/definition/RestOperationMeta.java:190-192 | the encoder filed under the type, `null` exactly when none is |
| RestDefinition.RestOperationMeta.EnsureFindProduceProcessor | common-rest/src/main/java/io/servicecomb/common/rest/definition/RestOperationMeta.java:195-215 | a null or empty header gives the operation's default; otherwise, over the reduced tokens, `*/*` gives the operation's default, then the global default type gives the global default encoder, then the first token in header order that the table knows gives its encoder, and `null` when none is known |
| RestDefinition.RestOperationMeta.SplitAcceptTypes | common-rest/src/main/java/io/servicecomb/common/rest/definition/RestOperationMeta.java:218-230 | the array holds one entry per comma-separated token, in order, each reduced to its media type |
| RestDefinition.RestOperationMeta.MediaTypeOfToken | common-rest/src/main/java/io/servicecomb/common/rest/definition/RestOperationMeta.java:220-227 | the inner loop yields the trimmed first `;`-piece that contains `/`, or the token itself |
| AcceptNegotiation.MediaTypeFound | common-rest/src/main/java/io/servicecomb/common/rest/definition/RestOperationMeta.java:221-225 | the first `;`-piece holding a slash decides the media type, trimmed |
| AcceptNegotiation.MediaTypeNotFound | common-rest/src/main/java/io/servicecomb/common/rest/definition/RestOperationMeta.java:220-227 | a token without a `;`-piece holding a slash stays as it is |
| AcceptNegotiation.MediaTypeOfShape | common-rest/src/main/java/io/servicecomb/common/rest/definition/RestOperationMeta.java:220-227 | a token without a slash is unchanged; a token with one becomes a trimmed string with a slash and no `;` |
| AcceptNegotiation.AcceptTypesAt | common-rest/src/main/java/io/servicecomb/common/rest/definition/RestOperationMeta.java:218-230 | the reduced list has one entry per comma-separated token, and entry `i` is token `i` reduced |
| RestDefinition.RestOperationMeta.ContainSpecType | common-rest/src/main/java/io/servicecomb/common/rest/definition/RestOperationMeta.java:233-240 | true exactly when some entry equals the type |
| AcceptNegotiation.FirstSupportedIndex | common-rest/src/main/java/io/servicecomb/common/rest/definition/RestOperationMeta.java:208-214 | the position of the first token that the table knows, and none exactly when no token is known |
| AcceptNegotiation.FirstSupported | common-rest/src/main/java/io/servicecomb/common/rest/definition/RestOperationMeta.java:208-214 | the encoder of the first known token, and `null` exactly when no token is known |
| JavaStrings.Split | common-rest/src/main/java/io/servicecomb/common/rest/definition/RestOperationMeta.java:219-221 | no piece holds the separator; a string without the separator splits to itself; trailing empty pieces are dropped |
| JavaStrings.SplitRestores | common-rest/src/main/java/io/servicecomb/common/rest/definition/RestOperationMeta.java:219-221 | the split is the separator-joined pieces with trailing empty pieces dropped |
| JavaStrings.SplitCovers | common-rest/src/main/java/io/servicecomb/common/rest/definition/RestOperationMeta.java:219-221 | a character other than the separator lands in some piece |
| JavaStrings.Trim | common-rest/src/main/java/io/servicecomb/common/rest/definition/RestOperationMeta.java:224 | the result has no blank at either end and stands in the string with only blanks around it |
| JavaStrings.TrimUnchanged | common-rest/src/main/java/io/servicecomb/common/rest/definition/RestOperationMeta.java:224 | a string with no blank at either end is its own trim |
| JavaStrings.TrimBlanks | common-rest/src/main/java/io/servicecomb/common/rest/definition/RestOperationMeta.java:224 | blanks on both sides of a string with non-blank ends are all removed, and nothing else is |
| JavaStrings.SplitPair | common-rest/src/main/java/io/servicecomb/common/rest/definition/RestOperationMeta.java:219-221 | two separator-free strings joined by the separator, the second non-empty, split back into the two |
| AcceptNegotiation.MediaTypeWhole | common-rest/src/main/java/io/servicecomb/common/rest/definition/RestOperationMeta.java:221-225 | a token with a slash and no `;` reduces to itself, trimmed |
| AcceptNegotiation.MediaTypeFirstPiece | common-rest/src/main/java/io/servicecomb/common/rest/definition/RestOperationMeta.java:221-225 | a media range followed by one parameter reduces to the range, trimmed, and the parameter is dropped |
| AcceptNegotiation.MediaTypeBeforeParameter | common-rest/src/main/java/io/servicecomb/common/rest/definition/RestOperationMeta.java:221-225 | a media range with non-blank ends followed by one parameter reduces to exactly that range |
| AcceptNegotiation.MediaTypeAfterParameter | common-rest/src/main/java/io/servicecomb/common/rest/definition/RestOperationMeta.java:221-225 | a leading piece without a slash is skipped and the media range after it is taken, trimmed |
| AcceptNegotiation.MediaTypeAfterBlank | common-rest/src/main/java/io/servicecomb/common/rest/definition/RestOperationMeta.java:221-225 | the blank left after a comma is removed from a media range without parameters |
| AcceptNegotiation.AcceptTypesOfPair | common-rest/src/main/java/io/servicecomb/common/rest/definition/RestOperationMeta.java:218-227 | a header of two comma-free tokens gives the two tokens' media types, in order |
| AcceptNegotiation.PaddingTrimmedExample | common-rest/src/main/java/io/servicecomb/common/rest/definition/RestOperationMeta.java:224 | `text/html` with a blank on each side trims to `text/html` |
| AcceptNegotiation.MediaTypeExample | common-rest/src/main/java/io/servicecomb/common/rest/definition/RestOperationMeta.java:220-227 | `q=1; text/html ` reduces to `text/html`: the piece with the slash wins over the first piece |
| AcceptNegotiation.ParameterDroppedExample | common-rest/src/main/java/io/servicecomb/common/rest/definition/RestOperationMeta.java:220-227 | `application/json;q=0.9` reduces to `application/json` |
| AcceptNegotiation.BlankTrimmedExample | common-rest/src/main/java/io/servicecomb/common/rest/definition/RestOperationMeta.java:220-227 | ` text/plain` reduces to `text/plain` |
| AcceptNegotiation.AcceptTypesExample | common-rest/src/main/java/io/servicecomb/common/rest/definition/RestOperationMeta.java:218-230 | the header `application/json;q=0.9, text/plain` reduces to `application/json` and `text/plain` |
| Maps.PutAllLastWins | common-rest/src/main/java/io/servicecomb/common/rest/definition/RestOperationMeta.java:187 | after a run of puts, a key is present exactly when it was or was put, and its value comes from its last put |
| ProviderAuth.Handle | handlers/handler-publickey-auth/src/main/java/io/servicecomb/authentication/provider/ProviderAuthHanlder.java:31-38 | the call goes on, with the invocation unchanged, exactly when a token is present and valid; otherwise it fails with status 401 "UNAUTHORIZED"; the validator is asked once when a token is present and never when it is absent |
| ProviderAuth.MissingTokenIgnoresValidator | handlers/handler-publickey-auth/src/main/java/io/servicecomb/authentication/provider/ProviderAuthHanlder.java:33-37 | without a token the outcome is the 401 failure whatever the validator would say |
| ProviderAuth.OnlyTokenMatters | handlers/handler-publickey-auth/src/main/java/io/servicecomb/authentication/provider/ProviderAuthHanlder.java:33-34 | two invocations with the same token under the key get the same decision and the same validator queries |

## Left out

- `PathRegExp` compilation and matching are not modelled. Whether a template compiles is the parameter `compiles`, and a compiled path records only its template.
- `URLPathBuilder` construction is not modelled. The builder records the path and the name map it was given.
- Logging calls are left out: the error in `createPathRegExp` and the message for an unsupported produce.
- Swagger model objects and Java reflection are reduced to plain data: produces lists, swagger parameters (name, location) and tags for the reflected parameter types.
- `ProduceProcessorManager` internals are left out. The manager is plain data: the processors in iteration order, the `findValue` table, `DEFAULT_TYPE` and `DEFAULT_PROCESSOR`.
- `RSAProviderTokenManager` is a validity predicate passed as a parameter. The value of `Const.AUTH_TOKEN` is a parameter too.
- ProviderAuth.Handle: a context entry whose value is `null` is modelled as an absent entry. Both cases fail with 401 without asking the validator.
- The asynchronous handler chain behind `invocation.next` and `asyncResp.producerFail` is left out. The handler returns which of the two it calls.
- RestDefinition.RestOperationMeta.GetDefaultOrFirstProcessor: `HashMap` iteration order is not modelled. The fallback is any value of the table, which is weaker than the fixed order of a given JVM.
- RestDefinition.RestOperationMeta.Init: `paramMap` is a `LinkedHashMap`. The model keeps its contents, but not its insertion order.
- RestDefinition.RestOperationMeta.AddParams: the parameter loop of `init` is a separate method. It does what the loop does.
- RestDefinition.RestOperationMeta.MediaTypeOfToken: the inner loop of `splitAcceptTypes` is a separate method. It returns the value written back, instead of writing it into the array before its `break`.
- The plain accessors are left out: `setOperationMeta`, `getAbsolutePath`, `getAbsolutePathRegExp`, `getOperationMeta`, `getPathBuilder`, `getParamList`, `getDefaultProcessor`, `setDefaultProcessor` and `getHttpMethod`. Each reads or writes one field, and the fields are public in the model.
- `isAbsoluteStaticPath` is left out. It asks the compiled path, and `PathRegExp` is not modelled.
- `HealthCheckerPublisher` and `EndpointsCache` are not part of this model. Both are thin delegates to collaborators that are not modelled.
- Concurrency is not modelled: the metadata is built once and then read.
