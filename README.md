# rainpath case hierarchy — a Dafny model

rainpath records laboratory cases as a four-level hierarchy: a Case holds
Specimens, a Specimen holds Blocks, and a Block holds Slides. The project
models the core logic of both halves of the application:

- **Front end.**
  - Labels for the hierarchy's levels.
  - The creation form's validators, field errors and nested editing.
  - The form-to-payload transform and the draft-save skip flag.
  - The block and slide counts and the case list's search filter.
  - The cases page's selection rules after fetch, create and delete.
  - The global keyboard shortcut.
- **Back end.**
  - The request DTO as a validity predicate.
  - The response DTO mapping and the database-error translation.
  - The cases repository over an abstract store.
  - The cases service.

Each source file is one module. Code that works by changing state is a
`class` with methods:
- the form and its draft storage;
- the cases page;
- the repository and the service.

Loops are `method`s with invariants, proved against specification functions:
- `formatBlockLabel`'s do/while loop;
- `summarizeSpecimens`.

Everything else is functions over datatypes, with lemmas stating what the
source promises. Shared helpers:
- `Strings`: JavaScript's `trim` whitespace set, ASCII lowercase, `includes`,
  decimal numerals, `split` and `join`.
- `Common`: `Option`, `Result` and `Array.prototype.filter`.
- `Hierarchy`: a tree's shape as counts per level.

Each layer has its own tree datatype: the form's values, the request DTO, the
create data, the stored rows, the response DTO and the client's records. Each
gets its own small shape function into `Hierarchy`'s shape. The counting facts
are then proved once, on shapes, and shared by every layer.

The repository's store keeps the case rows in creation order. It has one
serial clock that gives every inserted row its id and its creation time, so
creation order, id order and `createdAt` order agree. The invariant
`StoreInvariant` holds that order, distinct identifiers, parent links in every
row, and siblings ordered by creation time. A database failure the model does
not produce itself is a `failure` parameter. Network calls in the page come
in as `Result` outcomes. Random ids come in as `uid` parameters.

## Model

| member | source | states |
|---|---|---|
| CaseLabels.Letters | frontend/src/lib/caseLabels.ts:6-11 | the letter part of a block label is never empty and holds only the letters A to Z |
| CaseLabels.FormatBlockLabel | frontend/src/lib/caseLabels.ts:5-13 | the do/while loop that prepends `alphabet[cursor % 26]` and carries `floor(cursor / 26) - 1` ends with "Bloc " followed by the bijective base-26 numeral of the index; the loop terminates for every index of at least 0 |
| CaseLabels.LettersValue | frontend/src/lib/caseLabels.ts:8-11 | reading the letters as base 26 with A=1 … Z=26 gives the index plus one |
| CaseLabels.LettersOfValue | frontend/src/lib/caseLabels.ts:8-11 | every non-empty word of capital letters is the label of exactly one index (its base-26 value minus one) |
| CaseLabels.LettersInjective | frontend/src/lib/caseLabels.ts:5-13 | distinct indices get distinct block labels |
| CaseLabels.LettersExamples | frontend/src/lib/caseLabels.ts:9-10 | 0 → A, 25 → Z, 26 → AA, 27 → AB, 701 → ZZ, 702 → AAA |
| CaseLabels.FormatSpecimenLabel | frontend/src/lib/caseLabels.ts:3 | the label is "Prélèvement " followed by a numeral whose value is the index plus one |
| CaseLabels.FormatSlideLabel | frontend/src/lib/caseLabels.ts:15 | the label is "Lame " followed by a numeral whose value is the index plus one |
| CaseLabels.NumberedLabelsInjective | frontend/src/lib/caseLabels.ts:3-15 | distinct indices get distinct specimen labels and distinct slide labels |
| FormValidators.RequiredCheck | frontend/src/components/cases/form/validators.ts:3-4 | no error exactly when the value is not all whitespace; otherwise the error is the label followed by " est obligatoire." |
| FormValidators.RequiredValidator | frontend/src/components/cases/form/validators.ts:3-4 | the validator closure gives the required check's answer for every value |
| FormValidators.RequiredIgnoresPadding | frontend/src/components/cases/form/validators.ts:4 | adding whitespace before or after the value does not change the answer |
| FormValidators.BuildRequiredValidators | frontend/src/components/cases/form/validators.ts:6-9 | the same required check is installed for both blur and change |
| FormTypes.GetFieldError | frontend/src/components/cases/form/types.ts:23-31 | a message exactly when the field is touched, has errors and its first error is a string; the message is that first error |
| FormTypes.OnlyFirstErrorShown | frontend/src/components/cases/form/types.ts:23-31 | errors after the first never change the result, and an untouched field shows nothing whatever its errors |
| FormUtils.CreateEmptySlide | frontend/src/components/cases/form/utils.ts:14-17 | a new slide carries its uid and an empty staining |
| FormUtils.CreateEmptyBlock | frontend/src/components/cases/form/utils.ts:19-22 | a new block holds exactly one empty slide |
| FormUtils.CreateEmptySpecimen | frontend/src/components/cases/form/utils.ts:24-27 | a new specimen holds exactly one block with one empty slide |
| FormUtils.CreateInitialValues | frontend/src/components/cases/form/utils.ts:29-32 | the initial form has an empty identifier and the shape [[1]], so every level is non-empty |
| FormUtils.SummarizeSpecimens | frontend/src/components/cases/form/utils.ts:34-50 | the forEach loops count the specimens, the blocks of the tree's shape and the slides of the tree's shape |
| FormUtils.ToPayload | frontend/src/components/cases/form/utils.ts:52-61 | the server payload of the form; ToPayloadKeepsTree states its trimming and tree, PayloadValidIff its validity |
| FormUtils.ToPayloadKeepsTree | frontend/src/components/cases/form/utils.ts:52-61 | the payload trims the identifier and every staining, and keeps the count and order of specimens, blocks and slides; the uids are dropped by the payload's type |
| FormUtils.PayloadValidIff | frontend/src/components/cases/form/utils.ts:52-61 | the payload is a valid create request exactly when every field passes the required check and every list is non-empty |
| FormUtils.BlankIdentifierAcceptedOnlyByServer | backend/src/cases/dto/create-case.dto.ts:32-35 | the server accepts the identifier " ", which the form's required check rejects |
| FormUtils.GetSlideListPath | frontend/src/components/cases/form/utils.ts:103-104 | the slide-list path starts with "specimens[" |
| FormUtils.GetSlideFieldPath | frontend/src/components/cases/form/utils.ts:106-112 | a slide field's path is the slide-list path followed by "[" |
| FormUtils.PathSplit | frontend/src/components/cases/form/utils.ts:103-112 | the field path is "specimens[i].blocks[j].slides[k].field" with the indices in decimal |
| FormUtils.SlideFieldPathInjective | frontend/src/components/cases/form/utils.ts:103-112 | distinct index triples or fields give distinct field paths |
| CaseCreationForm.ApplyKeepsLevelsNonEmpty | frontend/src/components/cases/CaseCreationForm.tsx:76-116 | each add or remove, with the sibling count the page passes, keeps every specimen, block and slide list non-empty |
| CaseCreationForm.ReplayKeepsLevelsNonEmpty | frontend/src/components/cases/CaseCreationForm.tsx:76-116 | any sequence of adds and removes from a form with non-empty levels keeps every level non-empty |
| CaseCreationForm.AddAppendsOneSubtree | frontend/src/components/cases/CaseCreationForm.tsx:76-104 | an add appends one one-child subtree at the end of one list and changes no other count |
| CaseCreationForm.SubmissionMessage | frontend/src/components/cases/CaseCreationForm.tsx:53-56 | the message is the error's own for an Error, otherwise the fixed fallback text |
| CaseCreationForm.DraftStorage.Read | frontend/src/components/cases/form/utils.ts:66-77 | reading gives the stored draft or nothing |
| CaseCreationForm.DraftStorage.Save | frontend/src/components/cases/form/utils.ts:78-87 | after saving, the stored draft is the given values |
| CaseCreationForm.DraftStorage.Clear | frontend/src/components/cases/form/utils.ts:88-97 | after clearing, no draft is stored |
| CaseCreationForm.CaseCreationForm.constructor | frontend/src/components/cases/CaseCreationForm.tsx:38-40 | the initial values are the stored draft when there is one, otherwise the empty initial form; the skip flag is off and there is no error |
| CaseCreationForm.CaseCreationForm.AddSpecimen | frontend/src/components/cases/CaseCreationForm.tsx:76-78 | appends a fresh specimen to the list and keeps the levels non-empty |
| CaseCreationForm.CaseCreationForm.RemoveSpecimen | frontend/src/components/cases/CaseCreationForm.tsx:80-85 | does nothing when the total is at most 1, otherwise removes the specimen at the index; keeps the levels non-empty |
| CaseCreationForm.CaseCreationForm.AddBlock | frontend/src/components/cases/CaseCreationForm.tsx:87-89 | appends a fresh block to one specimen and keeps the levels non-empty |
| CaseCreationForm.CaseCreationForm.RemoveBlock | frontend/src/components/cases/CaseCreationForm.tsx:91-100 | does nothing when the block count is at most 1, otherwise removes that block; keeps the levels non-empty |
| CaseCreationForm.CaseCreationForm.AddSlide | frontend/src/components/cases/CaseCreationForm.tsx:102-104 | appends a fresh slide to one block and keeps the levels non-empty |
| CaseCreationForm.CaseCreationForm.RemoveSlide | frontend/src/components/cases/CaseCreationForm.tsx:106-116 | does nothing when the slide count is at most 1, otherwise removes that slide; keeps the levels non-empty |
| CaseCreationForm.CaseCreationForm.ValuesChanged | frontend/src/components/cases/CaseCreationForm.tsx:65-74 | the draft is saved unless the skip flag is set; a set flag skips exactly one save and is cleared |
| CaseCreationForm.CaseCreationForm.SubmitSucceeded | frontend/src/components/cases/CaseCreationForm.tsx:48-51 | sets the skip flag, resets the form to its initial values, clears the draft and notifies once |
| CaseCreationForm.CaseCreationForm.Submit | frontend/src/components/cases/CaseCreationForm.tsx:44-60 | hands on the payload of the current values; on success it resets, clears the draft and notifies; on failure it stores the message and rethrows, leaving the values and the draft alone |
| ClientCases.RecordShape | frontend/src/types/cases.ts:1-28 | a case's shape lists, for each specimen, the slide count of each of its blocks |
| GraphUtils.CountBlocks | frontend/src/components/cases/graph/utils.ts:3-4 | the reduce gives the number of blocks in the tree's shape |
| GraphUtils.CountSlides | frontend/src/components/cases/graph/utils.ts:6-11 | the nested reduce gives the number of slides in the tree's shape |
| GraphUtils.SumBlocksIsShapeBlocks | frontend/src/components/cases/graph/utils.ts:3-4 | the left fold from any start adds the number of blocks to the start |
| GraphUtils.SumSlidesIsRowSlides | frontend/src/components/cases/graph/utils.ts:9 | the inner fold adds the slide count of the specimen's blocks |
| GraphUtils.SumSpecimenSlidesIsShapeSlides | frontend/src/components/cases/graph/utils.ts:6-11 | the outer fold adds the slide count of the whole tree |
| GraphUtils.CountsAppend | frontend/src/components/cases/graph/utils.ts:3-11 | both counts are 0 on no specimens and add up over concatenation |
| CaseList.Haystack | frontend/src/components/cases/CaseList.tsx:38-40 | the searched text is the lowercase identifier, a space, then the id in decimal |
| CaseList.EmptyQueryKeepsAll | frontend/src/components/cases/CaseList.tsx:36 | the empty query matches every case |
| CaseList.FilterCases | frontend/src/components/cases/CaseList.tsx:34-43 | an empty query gives back the list itself; otherwise the result is the list's filter by the query and a subsequence of it in the original order |
| CaseList.FilterCasesMembership | frontend/src/components/cases/CaseList.tsx:37-41 | a case is in the result exactly when it is in the list and its searched text contains the query |
| CaseList.FilterCasesIdempotent | frontend/src/components/cases/CaseList.tsx:37-42 | searching the result again with the same text changes nothing |
| CaseList.ExactIdKept | frontend/src/components/cases/CaseList.tsx:38-41 | a case whose decimal id is the trimmed search text is always kept |
| CaseList.SearchIgnoresCaseAndPadding | frontend/src/components/cases/CaseList.tsx:35 | surrounding whitespace and letter case in the search text do not change the result |
| CasesPage.FirstWithIdIsFirst | frontend/src/routes/index.tsx:125-128 | `find` gives a case exactly when one has the selected id, and it is the first such case |
| CasesPage.FirstWithId | frontend/src/routes/index.tsx:125-128 | `cases.find` scanned from the left; FirstWithIdIsFirst states that it finds exactly the first case with the id |
| CasesPage.NextSelection | frontend/src/routes/index.tsx:22-30 | the selection after a fetch is always nothing or a listed id, and nothing exactly for an empty list; a truthy, still-listed selection is kept; any other choice is the first fetched case |
| CasesPage.CasesPage.constructor | frontend/src/routes/index.tsx:15-18 | the page starts with no cases, no selection, loading and not submitting |
| CasesPage.CasesPage.ApplyCases | frontend/src/routes/index.tsx:20-31 | the list becomes the fetched list and the selection becomes `NextSelection` of the old one; nothing is selected when it is empty; a truthy selection still listed is kept; otherwise the first fetched case is selected; afterwards the selection is empty or a listed id |
| CasesPage.CasesPage.InitialLoad | frontend/src/routes/index.tsx:33-58 | a fetched list becomes the list and the selection moves by `NextSelection`; a failure changes neither list nor selection; loading ends either way |
| CasesPage.CasesPage.Refresh | frontend/src/routes/index.tsx:60-75 | a fetched list becomes the list and the selection moves by `NextSelection`; a failure changes neither and is rethrown; loading ends either way |
| CasesPage.CasesPage.HandleCreateCase | frontend/src/routes/index.tsx:77-97 | a created case is put in front of the others, in their order, and selected; a failure changes nothing and is rethrown; submitting ends either way |
| CasesPage.CasesPage.HandleDeleteCase | frontend/src/routes/index.tsx:99-123 | every case with the id is removed and the rest keep their order; a truthy selection of another case is kept, otherwise the first remaining case or nothing is selected; a failure changes nothing and is rethrown |
| CasesPage.CasesPage.SelectedCase | frontend/src/routes/index.tsx:125-128 | the selected case is a listed case with the selected id, and one is found whenever something is selected |
| CasesPage.DeleteKeepsOthers | frontend/src/routes/index.tsx:104 | the list after a delete is a subsequence of the list before, holding exactly the cases with another id |
| GlobalShortcut.TrimParts | frontend/src/lib/useGlobalShortcut.ts:6 | each part is trimmed and the count is kept |
| GlobalShortcut.NormalizeShortcut | frontend/src/lib/useGlobalShortcut.ts:5-16 | the normalized key never contains "+"; NormalizeJoined states the key and the flags for canonical parts |
| GlobalShortcut.NormalizeJoined | frontend/src/lib/useGlobalShortcut.ts:5-16 | for canonical words, the last one is the key and each modifier flag is set exactly when that word is among the others |
| GlobalShortcut.NormalizeTwoWords | frontend/src/lib/useGlobalShortcut.ts:5-16 | "modifier+key" normalizes to the key with the one flag that the modifier names |
| GlobalShortcut.SearchCombosNormalized | frontend/src/lib/useGlobalShortcut.ts:5-16 | "ctrl+" a key sets only ctrl, and "meta+" a key sets only meta |
| GlobalShortcut.MatchesShortcut | frontend/src/lib/useGlobalShortcut.ts:18-23 | the match test; MatchesIffRequiredHeld states it as the key plus required modifiers among the held ones |
| GlobalShortcut.MatchesIffRequiredHeld | frontend/src/lib/useGlobalShortcut.ts:18-23 | a key press matches exactly when its lowercase key is the shortcut's and every flagged modifier is held; extra held modifiers do not matter |
| GlobalShortcut.AnyMatches | frontend/src/lib/useGlobalShortcut.ts:31 | `some` is true exactly when one of the shortcuts matches |
| GlobalShortcut.NormalizeAll | frontend/src/lib/useGlobalShortcut.ts:28 | every combination is normalized, in order |
| GlobalShortcut.ShortcutFires | frontend/src/lib/useGlobalShortcut.ts:25-31 | the listener's test; ShortcutFiresIff states that it fires exactly when one combination matches |
| GlobalShortcut.ShortcutFiresIff | frontend/src/lib/useGlobalShortcut.ts:25-31 | a single string or a list fires exactly when one of its combinations matches the press |
| GlobalShortcut.SearchShortcutFires | frontend/src/components/cases/CaseList.tsx:27 | the list search's ["ctrl+k", "meta+k"] fires exactly for the key with ctrl or meta held |
| CreateCaseDto.DtoShape | backend/src/cases/dto/create-case.dto.ts:10-41 | the request's shape lists, for each specimen, the slide count of each of its blocks |
| CreateCaseDto.ValidCaseCounts | backend/src/cases/dto/create-case.dto.ts:16-41 | a valid request has at least one specimen, at least as many blocks and at least as many slides again |
| CaseResponse.ToCaseResponseDtoList | backend/src/cases/dto/case-response.dto.ts:82-86 | the list keeps length and order, and element i is the DTO of record i |
| CaseResponse.ToCaseResponseDto | backend/src/cases/dto/case-response.dto.ts:48-80 | the response mapping; ResponseCopiesFields states the copied fields and ResponseRoundTrip that a linked record is recovered from it |
| CaseResponse.ResponseCopiesFields | backend/src/cases/dto/case-response.dto.ts:48-80 | the case's fields are copied; specimens, blocks and slides map one to one in order, each with its id, timestamps and staining copied |
| CaseResponse.ResponseRoundTrip | backend/src/cases/dto/case-response.dto.ts:48-80 | the DTO drops only the parent ids; a linked record is recovered from its DTO |
| CaseResponse.SpecimenRoundTrip | backend/src/cases/dto/case-response.dto.ts:56-77 | a linked specimen is recovered from its DTO and its case id |
| CaseResponse.BlockRoundTrip | backend/src/cases/dto/case-response.dto.ts:62-75 | a linked block is recovered from its DTO and its specimen id |
| PrismaErrors.TranslatePrismaError | backend/src/prisma/prisma-error.util.ts:13-35 | P2002 becomes Conflict with the unique message or 'Resource already exists.'; P2025 becomes NotFound with the not-found message or 'Resource not found.'; another Error is returned unchanged; a non-Error becomes InternalServerError('Unexpected database error.') |
| PrismaErrors.Status | backend/src/prisma/prisma-error.util.ts:15-33 | the HTTP status of a translated error: 409 for Conflict, 404 for NotFound, 500 otherwise; ContextOnlyChoosesMessage states that the context never changes it |
| PrismaErrors.ContextOnlyChoosesMessage | backend/src/prisma/prisma-error.util.ts:15-26 | the context never changes the kind of error or its status, only the message |
| PrismaErrors.AbsentContextUsesDefaults | backend/src/prisma/prisma-error.util.ts:21-25 | no context is the same as an empty context, and it gives the default messages |
| PrismaErrors.TranslateIdempotent | backend/src/prisma/prisma-error.util.ts:13-35 | translating an already translated error changes nothing |
| CasesRepository.MaterializeWellFormed | backend/src/cases/cases.repository.ts:7-21 | a created case is linked at every level and its siblings are ordered by creation time |
| CasesRepository.ToCreateData | backend/src/cases/cases.repository.ts:34-48 | the nested create data: identifier and stainings, with the request's nesting; CreatedContent states that they come back unchanged |
| CasesRepository.Materialize | backend/src/cases/cases.repository.ts:33-51 | the inserted case with its hierarchy; MaterializeWellFormed states it is linked and ordered, CreatedContent that it holds the request |
| CasesRepository.CreatedContent | backend/src/cases/cases.repository.ts:33-49 | the created case holds the request's identifier and stainings, nested in input order |
| CasesRepository.LookupFinds | backend/src/cases/cases.repository.ts:66-71 | the lookup finds a row exactly when one has the id, and the row it finds has that id |
| CasesRepository.Lookup | backend/src/cases/cases.repository.ts:66-71 | `findUnique` on the id; LookupFinds states that it finds a row exactly when one has the id |
| CasesRepository.FilterKeepsInvariant | backend/src/cases/cases.repository.ts:73-77 | deleting a case keeps the store's invariant and leaves no row with that id |
| CasesRepository.CasesRepository.constructor | backend/src/cases/cases.repository.ts:27-29 | the store starts empty and valid |
| CasesRepository.CasesRepository.CreateCase | backend/src/cases/cases.repository.ts:31-57 | a failure is translated with the duplicate-identifier message; a second case with the same identifier is a Conflict with that message; otherwise the new row holds the request, is linked and ordered, and is appended |
| CasesRepository.CasesRepository.FindAll | backend/src/cases/cases.repository.ts:59-64 | every row, newest first, each linked and ordered; a failure is passed on untranslated |
| CasesRepository.CasesRepository.FindById | backend/src/cases/cases.repository.ts:66-71 | the row with the id, or nothing exactly when no row has it; a failure is passed on untranslated |
| CasesRepository.CasesRepository.DeleteCase | backend/src/cases/cases.repository.ts:73-83 | a failure is translated with "Case with id N not found"; a missing id is a NotFound with that message; otherwise the row is removed and the others keep their order |
| CasesRepository.ReverseSameElements | backend/src/cases/cases.repository.ts:62 | newest-first order holds the same rows |
| CasesService.CasesService.CreateCase | backend/src/cases/cases.service.ts:14-17 | answers with the DTO of the created row, which maps back to exactly that row and the request; a duplicate is a Conflict |
| CasesService.CasesService.ListCases | backend/src/cases/cases.service.ts:19-22 | answers with one DTO per stored case, newest first; each maps back to a stored case and every stored case appears |
| CasesService.CasesService.GetCase | backend/src/cases/cases.service.ts:24-30 | a missing case is NotFound with "Case with id N not found"; otherwise the DTO of the case with that id |
| CasesService.CasesService.DeleteCase | backend/src/cases/cases.service.ts:32-34 | delegates: the case is removed; a missing id is NotFound with "Case with id N not found"; a store failure is translated with that same not-found message |
| Common.Filter | frontend/src/routes/index.tsx:104 | `Array.prototype.filter` keeps exactly the passing elements and no more of them than there were |
| Common.FilterIsSubsequence | frontend/src/components/cases/CaseList.tsx:37 | a filtered list keeps the original order |
| Common.FilterIdempotent | frontend/src/components/cases/CaseList.tsx:37 | filtering twice with the same test gives the once-filtered list |
| Common.FilterKeepsPairwise | backend/src/cases/cases.repository.ts:75 | removing elements keeps every ordering between the remaining ones |
| Hierarchy.FullShapeCounts | backend/src/cases/dto/create-case.dto.ts:16-41 | in a tree with non-empty levels there are at least as many slides as blocks and at least as many blocks as specimens |
| Hierarchy.ShapeCountsAppend | frontend/src/components/cases/graph/utils.ts:3-11 | block and slide counts add up over concatenation of specimen lists |

## Left out

- Draft storage is an abstract store holding at most one draft. `localStorage`, JSON encoding and the `window` check are not modelled.
- `createId` is random, so every uid is a parameter.
- Network calls, the `fetch` wrappers and the base URL are not modelled. The page's fetch, create and delete calls arrive as results.
- Promise sequencing, the `active` cancellation flag of the initial load, toasts and the success and error texts they show are not modelled. The page's handlers run their success and failure branches one after the other.
- Rendering components, `requestAnimationFrame` and focus handling are not modelled.
- The `keydown` listener's registration and removal are not modelled. The model states when the handler fires.
- Dates are serial integers on the server and optional strings on the client. Locale date formatting is not modelled.
- Lowercasing is ASCII only. Unicode case mapping is not modelled.
- Nest wiring is not modelled: modules, controller, `ParseIntPipe` and the `ValidationPipe`. `IsString` and `IsArray` hold by the model's types.
- The Prisma client, SQL, the schema and cascade deletion are not modelled.
  - The store's uniqueness of identifiers is inferred from the repository's duplicate-identifier message.
  - Deleting a case removes its hierarchy with it, because the hierarchy is nested in the row.
- CasesRepository.CreatedContent, CasesRepository.CasesRepository.FindAll, CasesRepository.MaterializeWellFormed: creation times are assumed distinct and in insertion order, because the store's serial clock gives every row its own tick. The database can give rows of one nested create, or two cases, the same `createdAt`, and `orderBy: { createdAt }` then leaves the tied rows in no fixed order. That tie, and the order it would produce, is not modelled.
- The database's own P2002 and P2025 message texts are placeholders. Translation replaces them, so they never reach a caller.
- CaseLabels.FormatBlockLabel: requires an index of at least 0. The source has no guard, and a negative index would read `alphabet[-1]`.
- CaseLabels.FormatSpecimenLabel, CaseLabels.FormatSlideLabel: the numeral's value is stated for indices of at least 0. Negative indices only keep the prefix.
- GlobalShortcut.SearchShortcutFires: is stated for any key made of lowercase letters (see GlobalShortcut.CanonicalWord). The search list's "k" is such a key (GlobalShortcut.SearchKeyCanonical).
- GlobalShortcut.NormalizeJoined: is stated for combinations whose parts are already lowercase, trimmed and free of "+". The normalization itself, including `pop` on the split parts, is the function `NormalizeShortcut`.
- CaseCreationForm.CaseCreationForm.RemoveSpecimen, RemoveBlock, RemoveSlide: the indices must be in range, since the page passes the rendered lists' own indices. They keep the levels non-empty only when the passed count is the list's length, as the page passes it.
- CaseCreationForm.CaseCreationForm.constructor: establishes the invariant only without a stored draft. A stored draft is whatever JSON was saved earlier, and nothing checks its shape.
- `getSlideListPath` and `getSlideFieldPath` are modelled on non-negative indices. Their outputs are only strings, and their template-literal types are not modelled.
