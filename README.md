# OID step plugin — a verified model of `run()`

This project models `OidStepPlugin.run()`, the Goobi workflow step that
gives a digitised work and its pages persistent object identifiers (OIDs).
It comes in two variants, and the model covers both:

- the **module-base** plugin: if the physical structure has no pages, it
  first builds one page per image, and it rewrites content-file locations
  after each rename;
- the **oid-creation** plugin: the same engine without those two steps.

One run of either variant does the following:

1. It decides whether the work already has a final identifier. That is the
   case when the first `CatalogIDDigital` value is made only of ASCII
   digits and has at most nine characters.
2. It counts the missing identifiers: the work, if it is not final, plus
   every page without `_urn`. When nothing is missing it finishes at once.
3. It requests `pages + 1` tokens from the identifier service. An
   informational journal entry is written when the count is not `pages + 1`.
4. A single cursor hands out the tokens in order:
   - the work, if it needs one, takes the first token, and the physical
     root gets the same value as a `_urn`;
   - every page without `_urn`, in physical order, then takes the next
     token.
5. After each page's `_urn`, every listed file in every derivative folder
   whose base (the name before its last dot) equals the page's base is
   moved to `<oid>.<its own extension>`. The page's image name becomes
   `<oid>.<page extension>`.

The model is imperative where the plugin is:

- the digital document (`Document.DigitalDocument`) and the file store
  (`Storage.FileStore`) are classes whose methods change them in place;
- the counting loop, the pagination loop, the page loop, the per-folder
  and per-file rename loops and the content-file loop are `while` loops
  with invariants.

Each method is proved against a specification function on values:

| method | specification function |
|---|---|
| `AssignPages` | `PageLoop.Swept` (the page loop replayed); `Assignment.AssignFrom` and `Assignment.Jobs` (closed forms of its pages and renames) |
| `RenameInFolder` | `Storage.Renamed` |
| `MirrorContentFiles` | `Assignment.Mirrored` |
| `Paginate` | `Mets.SynthesizedPages` |

The properties the plugin promises are lemmas about those functions. They
cover:

- demand bounds and the no-op run;
- tokens going out in page order and never past the end;
- distinct tokens giving distinct names;
- a second run requesting nothing.

Modules:

- `Names`: file names and identifier texts.
- `Mets`: metadata, the rule set and demand.
- `Storage`: folders and renames.
- `Assignment`: closed forms of the page loop's result.
- `Document`: the document class.
- `PageLoop`: the page loop on values.
- `OidStep`: the two `run()` variants.
- `Scenario`: the plugin test's situation.

Outside collaborators are parameters:

- The identifier service is `source: nat -> Response`, the answer for a
  requested count. `Unparsable` stands for any answer whose `oids` array
  cannot be read.
- The image-folder listing is `images: seq<string>`.
- The rule set is `Mets.RuleSet`: which metadata types a node kind may
  carry, which only once, and whether a page may hang under the physical
  root.

A run's result is a `Report`:

- its status: `Finish`, `Error`, or `Crash`, an unchecked exception that
  escapes `run()`;
- the request it sent;
- whether it wrote the journal entry;
- whether it wrote the metadata file.

Several behaviours of the code are easy to miss. The model keeps each of
them. Line numbers refer to the module-base `OidStepPlugin.java`.

- **Folder-size check.** The comment at line 239 says folders whose file
  count differs from the page count are removed from renaming. The loop at
  lines 240-245 only rebinds a local variable, so every listed folder is
  renamed (`OidStep.ApplyTokens` keeps the no-op loop).
- **Unreachable service.** `getStringFromUrl` returns `""` on an
  `IOException`. Reading that as a JSON object at line 209 throws an
  unchecked exception, which escapes `run()` (`Crash`, nothing saved).
- **Renaming the matches.** Every listed file with the page's base is moved,
  not just one per folder.
- **Page order.** Synthesized pages follow the order in which the image
  folder is listed. The model takes that order as given.
- **Refused page field.** When the rule set refuses a new page or one of its
  number fields during pagination, the exception reaches the catch at
  lines 303-305. `run()` then returns FINISH, and nothing is saved.
- **Too few tokens.** A response shorter than the demand makes
  `values.get` throw an unchecked exception. The run ends there, and the
  files of the pages already renamed stay renamed (`Crash`).
- **Identifier that cannot be added.** When the rule set refuses a new
  `CatalogIDDigital`, the code sets the value on a field that was never
  attached, so the work's metadata is unchanged (`Mets.WorkAssigned`).

Renaming has a hazard the code does not guard against. Every page's files
are renamed against one listing taken before the loop. Suppose a later
page's base equals the text of an earlier page's token. Then the earlier
page's renamed file is taken for the later page's file and moved again,
overwriting the later page's own file. `Assignment.ApplyJobsOverwrites`
states this for two pages. `Assignment.ApplyJobsMoves` states that every
page's files reach their new names when no such collision occurs.
Content files are re-pointed the same way, by each page's old file name
in turn. `Assignment.MirrorJobsMoves` states that each content file reaches
its page's new location, provided no earlier page had the same old name
and no later page's old name is that new location's last element.

## Model

Source paths are relative to the repository root. Members shared by both variants cite the module-base file; the oid-creation file's matching lines are 132-199 (work), 151-167 (demand) and 211-255 (page loop).

| member | source | states |
|---|---|---|
| Names.LastIndexOf | module-base/src/main/java/de/intranda/goobi/plugins/OidStepPlugin.java:261 | the result is the last position holding the character, no later position holds it, and it is -1 exactly when the character does not occur |
| Names.FileName | module-base/src/main/java/de/intranda/goobi/plugins/OidStepPlugin.java:259-260 | the last path element contains no separator, and a name without separator is its own last element |
| Names.FileNameIsLastElement | module-base/src/main/java/de/intranda/goobi/plugins/OidStepPlugin.java:259-260 | the last path element is a separator-free suffix of the path without its trailing separators, beginning at the path's start or right after a separator |
| Names.LastElementUnique | module-base/src/main/java/de/intranda/goobi/plugins/OidStepPlugin.java:259-260 | only one suffix has that shape: the part after the path's last separator |
| Names.SplitName | module-base/src/main/java/de/intranda/goobi/plugins/OidStepPlugin.java:261-263 | the extension contains no dot; a name with a dot is `base + "." + ext`; a name without one is all base with extension "" |
| Names.SplitJoin | module-base/src/main/java/de/intranda/goobi/plugins/OidStepPlugin.java:269-271 | splitting `<base>.<ext>` with a dot-free extension gives back that base and extension |
| Names.Decimal | module-base/src/main/java/de/intranda/goobi/plugins/OidStepPlugin.java:225 | the text of a token is non-empty, all digits, free of dots and separators, and starts with 0 only for 0 |
| Names.DecimalRoundTrip | module-base/src/main/java/de/intranda/goobi/plugins/OidStepPlugin.java:229 | reading a token's decimal text back gives the token |
| Names.DecimalInjective | module-base/src/main/java/de/intranda/goobi/plugins/OidStepPlugin.java:254-255 | two tokens have the same text exactly when they are equal |
| Names.DecimalLength | module-base/src/main/java/de/intranda/goobi/plugins/OidStepPlugin.java:138 | a token's text has at most k characters exactly when the token is below 10^k |
| Names.DecimalIsFinal | module-base/src/main/java/de/intranda/goobi/plugins/OidStepPlugin.java:138 | a token written as the work identifier counts as final exactly when it is below 10^9 |
| Names.FinalWorkIdBelow | module-base/src/main/java/de/intranda/goobi/plugins/OidStepPlugin.java:138 | a final work identifier, leading zeros included, denotes a number below 10^9 |
| Mets.FirstIndex | module-base/src/main/java/de/intranda/goobi/plugins/OidStepPlugin.java:133-137 | the index found holds the type and no earlier field has it; -1 means no field has it |
| Mets.FirstIndexFound | module-base/src/main/java/de/intranda/goobi/plugins/OidStepPlugin.java:136 | a first field of the type exists exactly when the list of that type is non-empty |
| Mets.WorkNeeded | module-base/src/main/java/de/intranda/goobi/plugins/OidStepPlugin.java:133-145 | a work without `CatalogIDDigital` needs an identifier; a work whose first `CatalogIDDigital` is final does not, whatever later fields hold |
| Mets.MissingUrns | module-base/src/main/java/de/intranda/goobi/plugins/OidStepPlugin.java:188-193 | the number of pages without `_urn` never exceeds the page count |
| Mets.MissingUrnsStep | module-base/src/main/java/de/intranda/goobi/plugins/OidStepPlugin.java:188-193 | counting one more page adds one exactly when that page has no `_urn` |
| Mets.MissingUrnsPrefix | module-base/src/main/java/de/intranda/goobi/plugins/OidStepPlugin.java:188-193 | the pages before any page, plus that page if it lacks `_urn`, never lack more than all pages |
| Mets.MissingUrnsExtremes | module-base/src/main/java/de/intranda/goobi/plugins/OidStepPlugin.java:188-197 | the count is 0 exactly when every page has `_urn`, and the page count exactly when none has |
| Mets.Demand | module-base/src/main/java/de/intranda/goobi/plugins/OidStepPlugin.java:143-193 | the number of missing identifiers is at least the number of pages without `_urn` and at most pages + 1 |
| Mets.DemandBound | module-base/src/main/java/de/intranda/goobi/plugins/OidStepPlugin.java:194-203 | demand is at most pages + 1; it is 0 exactly when the work is final and every page has `_urn`; it is pages + 1 (no journal entry) exactly when the work is not final and no page has `_urn` |
| Mets.WorkAssigned | module-base/src/main/java/de/intranda/goobi/plugins/OidStepPlugin.java:215-225 | the work's metadata grows by at most one field; every field but the first `CatalogIDDigital` stays; a field is added only when the work had no `CatalogIDDigital`, and it holds the token's text |
| Mets.PhysicalAssigned | module-base/src/main/java/de/intranda/goobi/plugins/OidStepPlugin.java:226-233 | the physical root keeps its fields and gains one `_urn` holding the token's text exactly when the rule set allows it |
| Mets.WorkSettled | module-base/src/main/java/de/intranda/goobi/plugins/OidStepPlugin.java:215-225 | once the work took a token and the identifier could be written, its first `CatalogIDDigital` (an existing non-final one overwritten, a missing one created) reads that token's text, and the work still needs an identifier exactly when the token is 10^9 or more |
| Mets.SynthesizedSnoc | module-base/src/main/java/de/intranda/goobi/plugins/OidStepPlugin.java:161-178 | the pagination of one more image is the earlier pagination plus one page numbered after them |
| Mets.SynthesizedNeedAll | module-base/src/main/java/de/intranda/goobi/plugins/OidStepPlugin.java:161-178 | no synthesized page has `_urn`, so synthesized pages need one identifier each |
| Document.DigitalDocument.CountMissingUrns | module-base/src/main/java/de/intranda/goobi/plugins/OidStepPlugin.java:188-193 | the loop's count is the number of pages without `_urn` |
| Document.DigitalDocument.EnsurePhysical | module-base/src/main/java/de/intranda/goobi/plugins/OidStepPlugin.java:149-154 | afterwards there is a physical root; metadata, pages and links are unchanged |
| Document.DigitalDocument.Paginate | module-base/src/main/java/de/intranda/goobi/plugins/OidStepPlugin.java:158-180 | with images and a rule set that admits the page numbers, the pages are one per image in listing order, numbered 1..n with logical number "uncounted", each linked from the logical root; a rejected page leaves no pages and reports failure |
| Document.DigitalDocument.AssignWork | module-base/src/main/java/de/intranda/goobi/plugins/OidStepPlugin.java:215-235 | the logical root is the work assignment of the token and the physical root gains a `_urn` of the same text when the rule set allows it; pages and content files are unchanged |
| Document.DigitalDocument.AddPageUrn | module-base/src/main/java/de/intranda/goobi/plugins/OidStepPlugin.java:253-256 | the page gains a `_urn` with the token's text exactly when the rule set allows it; otherwise nothing changes |
| Document.DigitalDocument.SetImageName | module-base/src/main/java/de/intranda/goobi/plugins/OidStepPlugin.java:286 | only the page's image name changes |
| Document.DigitalDocument.MirrorContentFiles | module-base/src/main/java/de/intranda/goobi/plugins/OidStepPlugin.java:288-293 | every content file whose last path element is the old name points at the new location, and no other changes |
| Storage.FileStore.Move | module-base/src/main/java/de/intranda/goobi/plugins/OidStepPlugin.java:275-280 | a present source is moved to the target name in its folder; a missing one fails and changes nothing |
| Storage.FileStore.MoveMatching | module-base/src/main/java/de/intranda/goobi/plugins/OidStepPlugin.java:269-281 | one listed file is moved to its target exactly when its base matches and it is still there |
| Storage.FileStore.RenameInFolder | module-base/src/main/java/de/intranda/goobi/plugins/OidStepPlugin.java:267-282 | the folder's files become the closed form `Renamed`: listed files with the base move to `<oid>.<ext>`, the rest stay; other folders are unchanged |
| Storage.FileStore.RenameEverywhere | module-base/src/main/java/de/intranda/goobi/plugins/OidStepPlugin.java:265-283 | every listed folder is renamed by its listing, in any folder order, and unlisted folders are unchanged (the same loop in both variants) |
| Storage.FileStore.ListAll | module-base/src/main/java/de/intranda/goobi/plugins/OidStepPlugin.java:238 | the listing shows every folder and exactly its files |
| Storage.ListFolder | module-base/src/main/java/de/intranda/goobi/plugins/OidStepPlugin.java:238 | a folder's listing holds each of its files once and nothing else |
| Storage.Renamed | module-base/src/main/java/de/intranda/goobi/plugins/OidStepPlugin.java:267-282 | unlisted files stay, and a folder without a listed file of the page's base is unchanged |
| Storage.ReplayedIsRenamed | module-base/src/main/java/de/intranda/goobi/plugins/OidStepPlugin.java:268-282 | moving the listed files one at a time in listing order gives the closed form, also when a target overwrites a later listed file or the token equals the base |
| Storage.RenamedMoves | module-base/src/main/java/de/intranda/goobi/plugins/OidStepPlugin.java:273-277 | a listed, present file with the page's base leaves its folder and its target appears, when the token's text differs from the base |
| Storage.RenamedKeeps | module-base/src/main/java/de/intranda/goobi/plugins/OidStepPlugin.java:273 | a file that is not listed, or whose base differs, stays |
| Storage.RenamedAddsOnlyTargets | module-base/src/main/java/de/intranda/goobi/plugins/OidStepPlugin.java:275 | every name the rename adds is `<oid>.<ext>` of a listed, present file with the page's base |
| Storage.RenamedOwnBase | module-base/src/main/java/de/intranda/goobi/plugins/OidStepPlugin.java:275-277 | when the token's text equals the base, every move is onto itself and the folder is unchanged |
| Storage.RenamedAllReaches | module-base/src/main/java/de/intranda/goobi/plugins/OidStepPlugin.java:265-277 | in every listed folder, a listed, present file with the page's base reaches `<oid>.<its extension>` |
| Storage.RenamedAllKeeps | module-base/src/main/java/de/intranda/goobi/plugins/OidStepPlugin.java:265-273 | in every folder, a file with another base stays |
| Assignment.PrefixFits | module-base/src/main/java/de/intranda/goobi/plugins/OidStepPlugin.java:254 | with enough tokens for all pages, the cursor at any page without `_urn` is within the tokens |
| Assignment.AssignFrom | module-base/src/main/java/de/intranda/goobi/plugins/OidStepPlugin.java:247-299 | the loop yields one page for each page it visits |
| Assignment.Jobs | module-base/src/main/java/de/intranda/goobi/plugins/OidStepPlugin.java:247-294 | the loop renames once for each page without `_urn` |
| Assignment.AssignFromAt | module-base/src/main/java/de/intranda/goobi/plugins/OidStepPlugin.java:250-256 | a page without `_urn` ends up assigned the token at the cursor's start plus the number of earlier pages without `_urn` |
| Assignment.AssignedHasUrn | module-base/src/main/java/de/intranda/goobi/plugins/OidStepPlugin.java:250-256 | every page carries `_urn` after assignment |
| Assignment.AssignFromComplete | module-base/src/main/java/de/intranda/goobi/plugins/OidStepPlugin.java:247-299 | after assignment no page lacks `_urn` |
| Assignment.TokensInPageOrder | module-base/src/main/java/de/intranda/goobi/plugins/OidStepPlugin.java:247-294 | of two pages without `_urn`, the later one takes a later token |
| Assignment.AssignedName | module-base/src/main/java/de/intranda/goobi/plugins/OidStepPlugin.java:286 | an assigned page's new image name has the token's text as its base |
| Assignment.AssignedPageBase | module-base/src/main/java/de/intranda/goobi/plugins/OidStepPlugin.java:286 | the base of `<oid>.<ext>` is the token's text |
| Assignment.AssignedPagesDiffer | module-base/src/main/java/de/intranda/goobi/plugins/OidStepPlugin.java:286 | pages that took different tokens get different image names |
| Assignment.DistinctTokensDistinctNames | module-base/src/main/java/de/intranda/goobi/plugins/OidStepPlugin.java:254-286 | with distinct tokens, two pages assigned in one run get distinct image names |
| Assignment.JobAt | module-base/src/main/java/de/intranda/goobi/plugins/OidStepPlugin.java:247-294 | the rename of a page without `_urn` is the one after those of the earlier pages without `_urn`, with its old file name and its token |
| Assignment.ApplyJobs | module-base/src/main/java/de/intranda/goobi/plugins/OidStepPlugin.java:265-283 | the renames neither create nor remove a folder |
| Assignment.MirrorJobs | module-base/src/main/java/de/intranda/goobi/plugins/OidStepPlugin.java:288-293 | the renames keep the number of content files |
| Assignment.AssignedAll | module-base/src/main/java/de/intranda/goobi/plugins/OidStepPlugin.java:247-299 | the pages after the loop's last page are the whole assignment |
| Assignment.ApplyJobsKeeps | module-base/src/main/java/de/intranda/goobi/plugins/OidStepPlugin.java:265-283 | a file whose base no rename looks for stays in its folder through all renames |
| Assignment.ApplyJobsMoves | module-base/src/main/java/de/intranda/goobi/plugins/OidStepPlugin.java:265-283 | when no other page has a page's base and no later page has that page's token text as its base, every listed file with the base ends at `<token>.<its extension>` |
| Assignment.ApplyJobsOverwrites | module-base/src/main/java/de/intranda/goobi/plugins/OidStepPlugin.java:265-283 | a folder holding `<b>.<e>` and `<t1>.<e>`, whose pages `<b>.<e>` and `<t1>.<e>` take t1 and t2, ends holding only `<t2>.<e>`: the first page's new name names no file |
| Assignment.MirrorJobsKeeps | module-base/src/main/java/de/intranda/goobi/plugins/OidStepPlugin.java:288-293 | a content file that no renamed page named keeps its location |
| Assignment.MirrorJobsMoves | module-base/src/main/java/de/intranda/goobi/plugins/OidStepPlugin.java:247-293 | a content file whose last path element is a page's old file name ends at `file://<token>.<ext>`, provided no earlier page had that old name and no later page's old name is the new one |
| Assignment.ContentLocationName | module-base/src/main/java/de/intranda/goobi/plugins/OidStepPlugin.java:286-291 | the last element of a page's new content location is `<token>.<ext>`, the page's new image name |
| PageLoop.Visit | module-base/src/main/java/de/intranda/goobi/plugins/OidStepPlugin.java:247-299 | one page pass changes only that page, moves the cursor by at most one, adds one rename per token taken after the earlier ones, and leaves a failed loop or a page with `_urn` as it was |
| PageLoop.SweptRefused | module-base/src/main/java/de/intranda/goobi/plugins/OidStepPlugin.java:294-297 | when `_urn` may not be added, the loop changes no page, renames nothing, never moves the cursor, and fails exactly at a page without `_urn` when no token is at the cursor |
| PageLoop.SweptAssigned | module-base/src/main/java/de/intranda/goobi/plugins/OidStepPlugin.java:247-299 | after any number of pages the loop has failed exactly when those pages need more tokens than remain; until then they are assigned and renamed in order |
| PageLoop.SweptStaysCrashed | module-base/src/main/java/de/intranda/goobi/plugins/OidStepPlugin.java:254 | once a page finds no token, the loop ends there |
| PageLoop.SweptOutcome | module-base/src/main/java/de/intranda/goobi/plugins/OidStepPlugin.java:247-299 | the whole loop fails exactly when the pages run out of tokens; when pages may carry `_urn` and it does not fail, its pages, renames and cursor are the closed forms, and a failure stops at a page without `_urn` after exactly the renames of the pages before it, having used every token; when pages may not carry `_urn`, nothing changes |
| OidStep.FreshPageCanAdd | module-base/src/main/java/de/intranda/goobi/plugins/OidStepPlugin.java:256 | a page without `_urn` may take one exactly when the rule set allows `_urn` on pages |
| OidStep.RenamePage | module-base/src/main/java/de/intranda/goobi/plugins/OidStepPlugin.java:258-293 | the folders are renamed by the page's base, the page's image name becomes `<oid>.<ext>`, and with mirroring the content files follow |
| OidStep.AssignPage | module-base/src/main/java/de/intranda/goobi/plugins/OidStepPlugin.java:250-297 | the page becomes its assigned page and the renames follow exactly when `_urn` is allowed; otherwise nothing changes |
| OidStep.VisitPage | module-base/src/main/java/de/intranda/goobi/plugins/OidStepPlugin.java:247-298 | one page pass moves the document, the folders and the cursor as the replayed loop does |
| OidStep.AssignPages | module-base/src/main/java/de/intranda/goobi/plugins/OidStepPlugin.java:247-299 | the loop fails exactly when the pages run out of tokens; otherwise the pages, folders, content files (when they follow) and cursor are the closed forms; a failure leaves the renames of the pages before it |
| OidStep.SweptClosed | module-base/src/main/java/de/intranda/goobi/plugins/OidStepPlugin.java:247-299 | the replayed loop in closed form, including where a failed loop stopped |
| OidStep.ApplyTokens | module-base/src/main/java/de/intranda/goobi/plugins/OidStepPlugin.java:213-299 | the run fails exactly when it reads past the tokens; otherwise the work, physical root, pages, folders and content files are their closed forms from one listing of the folders; a failure at the work leaves the folders as they were; the folder-size check changes nothing, so every listed folder is renamed |
| OidStep.RequestAndApply | module-base/src/main/java/de/intranda/goobi/plugins/OidStepPlugin.java:188-301 | zero demand finishes with no request and no change; otherwise pages + 1 tokens are requested, the journal entry is written exactly when demand is not pages + 1, and the run saves the closed-form result or crashes exactly when the answer is unreadable or too short |
| OidStep.RunModuleBase | module-base/src/main/java/de/intranda/goobi/plugins/OidStepPlugin.java:113-307 | a rejected page ends the run with FINISH and nothing saved; no pages after pagination gives ERROR with no request; otherwise, on the document's pages or one page per image when it had none (each linked from the logical root), the request outcome with content files following |
| OidStep.RunOidCreation | goobi-plugin-step-oid-creation/src/main/java/de/intranda/goobi/plugins/OidStepPlugin.java:112-264 | a document without physical root, or whose physical root has no pages (a `null` child list), crashes before any change; otherwise the request outcome on its own pages, without pagination and without content-file changes |
| OidStep.TokensShort | module-base/src/main/java/de/intranda/goobi/plugins/OidStepPlugin.java:213-254 | when pages may carry `_urn`, the run reads past the tokens exactly when there are fewer tokens than missing identifiers |
| OidStep.RefusedPagesShort | module-base/src/main/java/de/intranda/goobi/plugins/OidStepPlugin.java:252-297 | when pages may not carry `_urn`, the run reads past the tokens exactly when there are too few for the work and, if some page lacks `_urn`, one more |
| OidStep.ServiceSuffices | module-base/src/main/java/de/intranda/goobi/plugins/OidStepPlugin.java:199-216 | an answer of the pages + 1 tokens requested is never read past |
| OidStep.ServedRunSaves | module-base/src/main/java/de/intranda/goobi/plugins/OidStepPlugin.java:203-301 | a run whose service answers with pages + 1 tokens finishes and saves |
| OidStep.RunSettles | module-base/src/main/java/de/intranda/goobi/plugins/OidStepPlugin.java:133-197 | after a run that did not read past its tokens, with pages allowed to carry `_urn`, every page has `_urn`, the work still needs an identifier exactly when it needed one and took a token of 10^9 or more, and the next demand is 1 in that case and 0 otherwise |
| OidStep.SavedRunSettles | module-base/src/main/java/de/intranda/goobi/plugins/OidStepPlugin.java:194-197 | after a saved run with a work token below 10^9, nothing is missing: a second run is a no-op |
| Scenario.TestWorkAbsent | plugin/src/test/java/de/intranda/goobi/plugins/OidPluginTest.java:180 | a work without an identifier needs one, and its `CatalogIDDigital` becomes the text of the first token |
| Scenario.TestWorkReplaced | plugin/src/test/java/de/intranda/goobi/plugins/OidPluginTest.java:180 | a work whose identifier is not final needs one, and that identifier becomes the text of the first token |
| Scenario.FreshPagesInOrder | plugin/src/test/java/de/intranda/goobi/plugins/OidPluginTest.java:121 | pages that all lack `_urn`, given a token each after the work's, take the tokens in page order: page k takes token k + 1, and its file is renamed by it |
| Scenario.OnePagePages | plugin/src/test/java/de/intranda/goobi/plugins/OidPluginTest.java:183-185 | a page `<base>.<ext>` without `_urn` takes the second token as `_urn` and is named `<token>.<ext>` |
| Scenario.OnePageFolders | plugin/src/test/java/de/intranda/goobi/plugins/OidPluginTest.java:187-194 | two folders holding the page's file with their own extensions end up holding `<token>.<that extension>` |

## Left out

- The HTTP request and the JSON reading are not modelled: the answer for a requested count is the parameter `source`, and an answer whose `oids` array cannot be read is `Unparsable`.
- Plugin configuration, the rule-set lookup by name and plugin lifecycle are not modelled; the rule set is the value `RuleSet`.
- Reading and writing the metadata file are not modelled; writing is the `saved` flag of the report.
- The journal entry and log output are not modelled; the journal entry is the `warned` flag.
- Tokens are unbounded naturals: negative values and the 64-bit range of Java's `long` are not modelled.
- Names.FileName: the last element of a path that is only separators is taken as empty, where Java's `getFileName` returns null and the plugin throws; such image names (line 259) and such content-file locations (line 289) are not modelled.
- Mets.WorkNeeded: a `CatalogIDDigital` field whose value is `null` makes the match at line 138 throw; metadata values are always strings in the model, so that case is not modelled.
- A `null` image name and a `null` file set are not modelled; empty values stand for them.
- OidStep.RunOidCreation: a physical root without pages stands for a `null` child list, on which the oid-creation loop throws; an empty but non-`null` child list, which would still request the work's identifier, is not modelled.
- Storage.FileStore.Move: an I/O failure of an existing source is not modelled; a move replaces an existing target of the same name.
- A failure to create a page or the physical root (`createDocStruct`) is not modelled.
- OidStep.RunModuleBase, OidStep.RunOidCreation, OidStep.RequestAndApply and OidStep.ApplyTokens require every folder file name to contain a dot; the Java code throws an unchecked exception on a dotless listed file, which is not modelled.
- I/O failures of the folder listing and its order are not modelled; the listing is the folders' contents in an arbitrary order.
- OidStep.AssignPages, OidStep.ApplyTokens: after a failure only the folders are described, not the pages and content files in memory, because a failed run never saves them.
- The order of the image folder listing is taken as given (`images`); sorting images by name is not modelled.
