# MiauPlace core, modelled in Dafny

MiauPlace is a Next.js site where people put cats up for adoption. This
project models the parts of it that hold sequential logic, and proves what
that logic promises:

- **Input masks and address lookup** (`src/lib/cep.ts`). `formatCEP` masks a
  Brazilian postal code as `NNNNN-NNN`. `formatPhone` masks a phone number as
  `(DD) NNNNN-NNNN`. `fetchAddressByCEP` guards a lookup on the ViaCEP service
  and maps its answer to an address (`cep.dfy`, with digit stripping and the
  JavaScript `trim` whitespace set in `text.dfy`).
- **The donation wizard** (`src/app/doar/page.tsx`). This covers:
  - the flat draft record and its partial updates;
  - the per-step validator, where a later check overwrites an earlier message;
  - the personality toggle and the record that submission stores
    (`donation_form.dfy`);
  - the page's state as a class whose methods are the event handlers
    (`donation_wizard.dfy`).
- **The photo picker** (`src/components/forms/ImageUpload.tsx`). It removes a
  photo, moves a photo with two splices, and appends newly read files up to
  the capacity (`image_upload.dfy`).
- **The cat card** (`src/components/CatCard.tsx`). Its carousel index, its
  like button and its image-error flag form a class (`cat_card.dfy`).
- **The home page** (`src/app/page.tsx`). It has the featured row, the city
  filter and its state, the pluralised count line and the empty state
  (`home_page.dfy`). The `Cat` record of `src/types/index.ts` is in
  `cat_types.dfy`.

Outside effects are parameters:

- The network is a function from the requested URL to the decoded response.
  It returns None where the request or the JSON decoding throws.
- Reading a file as a data URL is a function from file to string.
- The clock readings used for the id and the creation time are strings passed
  to the submit handler.
- Local storage is a list field of the wizard.

## Model

| member | source | states |
|---|---|---|
| Text.Digits | src/lib/cep.ts:47 | `replace(/\D/g, '')` keeps only digits and never lengthens the string |
| Text.DecimalRoundTrip | src/app/page.tsx:101 | the count written in decimal reads back as the count |
| Cep.FormatCEP | src/lib/cep.ts:46-52 | output at most 9 long. At most 5 digits gives the digits alone. More gives min(8, n) digits plus a '-' at index 5 |
| Cep.CepKeepsLeadingDigits | src/lib/cep.ts:47-51 | the output's digits are the first min(n, 8) digits of the input |
| Cep.CepIdempotent | src/lib/cep.ts:46-52 | masking a masked code changes nothing |
| Cep.CepFullExample | src/lib/cep.ts:51 | "01310930" becomes "01310-930" |
| Cep.CepShortExample | src/lib/cep.ts:48-50 | "013" stays "013" |
| Cep.FormatPhone | src/lib/cep.ts:54-63 | output at most 15 long. At most 2 digits gives the digits alone. 3 to 7 digits gives "(DD) rest" |
| Cep.PhoneKeepsLeadingDigits | src/lib/cep.ts:55-62 | the output's digits are the first min(n, 11) digits of the input |
| Cep.PhoneIdempotent | src/lib/cep.ts:54-63 | masking a masked number changes nothing |
| Cep.PhoneOfDigitString | src/lib/cep.ts:62 | 8 to 11 digits gain only the parentheses, space and hyphen |
| Cep.PhoneOfTruncatedDigits | src/lib/cep.ts:55-62 | any input, with separators or more than eleven digits, is masked as its first eleven digits are |
| Cep.PhoneFullShape | src/lib/cep.ts:62 | any input with 8 or more digits gives "(DD) NNNNN-NNNN" of its first eleven digits |
| Cep.PhoneOfParts | src/lib/cep.ts:62 | a full number is "(area) first-last" of its parts |
| Cep.PhoneOfMaskedParts | src/lib/cep.ts:54-63 | a box already masked as "(DD) NNNNN", with more digits typed after it, is masked afresh as "(DD) NNNNN-rest" |
| Cep.PhoneMaskedExample | src/lib/cep.ts:62 | "(11) 987654" becomes "(11) 98765-4" |
| Cep.PhoneFullExample | src/lib/cep.ts:62 | "11987654321" becomes "(11) 98765-4321" |
| Cep.PhonePartialExample | src/lib/cep.ts:59-60 | "1198" becomes "(11) 98" |
| Cep.LookupUrl | src/lib/cep.ts:20-27 | a URL is requested exactly when the cleaned code has 8 digits |
| Cep.FetchAddressByCEP | src/lib/cep.ts:19-44 | no 8 digits gives null. An address comes only from a decoded response without `erro` |
| Cep.FetchMapsResponse | src/lib/cep.ts:30-40 | `erro` gives null. Otherwise logradouro, bairro, localidade and uf become street, neighborhood, city and state |
| Cep.NoRequestWithoutEightDigits | src/lib/cep.ts:20-24 | without 8 digits the result is null whatever the network does |
| ImageUpload.Cover | src/components/forms/ImageUpload.tsx:185-189 | a cover exists exactly when there is a photo |
| ImageUpload.RemoveImage | src/components/forms/ImageUpload.tsx:60-65 | one fewer photo for an index in range, the same count otherwise |
| ImageUpload.RemoveImageDropsOne | src/components/forms/ImageUpload.tsx:60-65 | only the photo at the index goes and the rest keep their order. An out-of-range index changes nothing |
| ImageUpload.RemoveCoverPromotesNext | src/components/forms/ImageUpload.tsx:62 | removing the cover makes the second photo the cover |
| ImageUpload.Relocated | src/components/forms/ImageUpload.tsx:70-73 | same length, and the moved photo lands at `to` |
| ImageUpload.MoveImage | src/components/forms/ImageUpload.tsx:67-76 | `to` out of range emits nothing. Otherwise the two splices emit the relocated list |
| ImageUpload.RelocatedPermutes | src/components/forms/ImageUpload.tsx:70-73 | a move keeps the multiset of photos |
| ImageUpload.RelocatedKeepsOthersInOrder | src/components/forms/ImageUpload.tsx:70-73 | the other photos keep their relative order |
| ImageUpload.MoveLeftSwaps | src/components/forms/ImageUpload.tsx:147-150 | the left arrow swaps a photo with its left neighbour |
| ImageUpload.MoveLeftThenRightRestores | src/components/forms/ImageUpload.tsx:147-174 | left arrow then right arrow restores the list |
| ImageUpload.MoveToFrontMakesCover | src/components/forms/ImageUpload.tsx:185-189 | a photo moved to index 0 becomes the cover |
| ImageUpload.SliceFront | src/components/forms/ImageUpload.tsx:22-23 | `slice(0, end)` is a prefix, of length min(end, n) for a non-negative end |
| ImageUpload.Encoded | src/components/forms/ImageUpload.tsx:26-34 | one data URL per file, in order |
| ImageUpload.HandleFileChange | src/components/forms/ImageUpload.tsx:15-39 | the loop emits exactly `FileChangeResult`: the old photos then the new data URLs, or nothing |
| ImageUpload.FileChangeRespectsCapacity | src/components/forms/ImageUpload.tsx:20-31 | for any starting list, an emitted list is longer than before and at most `maxImages` long (an already full list emits nothing) |
| ImageUpload.FileChangeAppends | src/components/forms/ImageUpload.tsx:31 | the old photos are an unchanged prefix, followed by the files' data URLs in order |
| ImageUpload.NonImageBlocksChange | src/components/forms/ImageUpload.tsx:25-30 | a non-image among the files that fit means nothing is emitted |
| CatCardView.NextIndex | src/components/CatCard.tsx:20 | stays in range, wraps the last photo to the first, and otherwise adds one |
| CatCardView.PrevIndex | src/components/CatCard.tsx:26 | stays in range, wraps the first photo to the last, and otherwise subtracts one |
| CatCardView.NextPrevInverse | src/components/CatCard.tsx:20-26 | each arrow undoes the other |
| CatCardView.NextTimes | src/components/CatCard.tsx:20 | any number of presses stays in range |
| CatCardView.FullTurnReturns | src/components/CatCard.tsx:20 | as many presses as photos return to the start |
| CatCardView.CatCard.constructor | src/components/CatCard.tsx:13-15 | first photo, not liked, no load error |
| CatCardView.CatCard.NextImage | src/components/CatCard.tsx:17-21 | advances by `NextIndex` and keeps the index valid. Offered only with more than one photo (line 55) |
| CatCardView.CatCard.PrevImage | src/components/CatCard.tsx:23-27 | goes back by `PrevIndex` and keeps the index valid |
| CatCardView.CatCard.ToggleLike | src/components/CatCard.tsx:29-33 | negates the heart and changes nothing else |
| CatCardView.CatCard.OnImageError | src/components/CatCard.tsx:45 | sets the error flag. Nothing clears it |
| CatCardView.LikeTwiceRestores | src/components/CatCard.tsx:29-33 | two likes restore the heart, and browsing keeps a load error |
| HomePage.FeaturedCats | src/app/page.tsx:11 | never more cats than the list |
| HomePage.FeaturedCatsMembers | src/app/page.tsx:11 | a cat is featured on the page exactly when it is listed and has `featured` true |
| HomePage.FeaturedCatsConcat | src/app/page.tsx:11 | the featured row keeps the list's order |
| HomePage.VisibleCats | src/app/page.tsx:12-14 | an empty filter shows the whole list. The result is never longer than the list |
| HomePage.VisibleCatsMembers | src/app/page.tsx:13 | with a city chosen, a cat is shown exactly when it is listed and lives there |
| HomePage.VisibleCatsConcat | src/app/page.tsx:13 | the filtered list keeps the list's order |
| HomePage.CountLabelSingular | src/app/page.tsx:101 | one cat reads "1 gatinho disponivel para adocao" |
| HomePage.CountLabelPlural | src/app/page.tsx:101 | any other count takes "gatinhos" and "disponiveis" |
| HomePage.CountLabelStartsWithCount | src/app/page.tsx:101 | the line starts with the count in decimal |
| HomePage.Home.constructor | src/app/page.tsx:9 | no city chosen |
| HomePage.Home.HandleSearch | src/app/page.tsx:16-21 | the chosen city becomes the filter and the shown list follows it |
| HomePage.Home.ClearFilter | src/app/page.tsx:107 | both clear buttons (also line 140) reset the filter, and every cat is shown |
| HomePage.EmptyStateIffNoCatInCity | src/app/page.tsx:118 | with a city chosen, the empty state shows exactly when no cat lives there |
| DonationForm.Get | src/app/doar/page.tsx:9-42 | every field read has its declared type |
| DonationForm.MergeGet | src/app/doar/page.tsx:111 | after `{ ...prev, ...updates }` an updated field has the new value and any other its old one |
| DonationForm.StepErrors | src/app/doar/page.tsx:155-189 | a step reports only on its own fields, and no message is empty. Steps other than 1 to 4 report nothing |
| DonationForm.StepErrorsExact | src/app/doar/page.tsx:159-182 | a step files an error under a field exactly when it checks that field and the field's rule fails. The message is that field's, with the last check that fires winning |
| DonationForm.StepValidIff | src/app/doar/page.tsx:159-186 | the error map is empty exactly when every field rule of the step holds |
| DonationForm.DescriptionMessage | src/app/doar/page.tsx:163-164 | too short wins over required. A blank description of 20 or more keeps required |
| DonationForm.WhatsappMessage | src/app/doar/page.tsx:179-182 | WhatsApp is reported exactly when it has fewer than 10 digits, always as invalid |
| DonationForm.ToggleMembership | src/app/doar/page.tsx:144-153 | the toggled trait's membership flips and no other trait's does |
| DonationForm.ToggleOffKeepsOrder | src/app/doar/page.tsx:147-148 | removing a trait takes out its one position and keeps the others in order |
| DonationForm.ToggleTwiceRestores | src/app/doar/page.tsx:147-149 | adding then removing a trait restores the list |
| DonationForm.TogglePreservesBound | src/app/doar/page.tsx:471-473 | while the button disabling holds, the list stays duplicate-free and at most 5 long |
| DonationForm.BuildRecord | src/app/doar/page.tsx:211-231 | the record takes the given id and time. Location is (city, state, neighborhood) and goodWith is (kids, dogs, cats). The owner has the draft's name, the fixed avatar, no phone, and the digits of the WhatsApp entry |
| DonationForm.RecordOfValidContact | src/app/doar/page.tsx:220-222 | after a valid contact step the owner is named and has at least 10 WhatsApp digits |
| DonationForm.RecordKeepsDraft | src/app/doar/page.tsx:213-214 | every draft field but age is kept. The age becomes "<age> meses" or "<age> anos" |
| DonationWizard.Cleared | src/app/doar/page.tsx:113-117 | the updated keys join the error map |
| DonationWizard.ClearedShows | src/app/doar/page.tsx:113-117 | a message shows after an update exactly when its field was not updated and it showed before |
| DonationWizard.CombineClears | src/app/doar/page.tsx:123-137 | two updates in turn clear the union of their keys |
| DonationWizard.ValidationShowsStepErrors | src/app/doar/page.tsx:185 | after validation every stored message shows |
| DonationWizard.NextStepOf | src/app/doar/page.tsx:191-195 | the step stays within 1 to 4 |
| DonationWizard.PrevStepOf | src/app/doar/page.tsx:197-199 | the step stays within 1 to 4 |
| DonationWizard.NextStepAdvancesIff | src/app/doar/page.tsx:191-195 | before the last step, the wizard moves on exactly when the rules hold. From the last step it stays |
| DonationWizard.PrevUndoesNext | src/app/doar/page.tsx:191-199 | going back undoes a successful step forward |
| DonationWizard.CepUpdate | src/app/doar/page.tsx:122-123 | a well-typed update of the CEP alone |
| DonationWizard.AddressUpdate | src/app/doar/page.tsx:130-136 | a well-typed update of street, neighborhood, city and state alone |
| DonationWizard.MergeCep | src/app/doar/page.tsx:123 | the CEP update replaces the CEP and nothing else |
| DonationWizard.MergeAddress | src/app/doar/page.tsx:130-136 | the address update replaces the four address fields and nothing else |
| DonationWizard.CepChangeFound | src/app/doar/page.tsx:120-142 | a found address fills the four fields, the CEP is masked, and nothing else changes |
| DonationWizard.CepChangeNotFound | src/app/doar/page.tsx:129-133 | without an address only the masked CEP changes |
| DonationWizard.CepChangeWithoutEightDigits | src/app/doar/page.tsx:125-126 | without 8 digits the network plays no part and only the CEP changes |
| DonationWizard.Wizard.constructor | src/app/doar/page.tsx:101-106 | step 1, the initial draft, no messages, no success |
| DonationWizard.Wizard.UpdateFormData | src/app/doar/page.tsx:110-118 | the draft is merged and the updated keys' messages are blanked. The loop over the keys builds that map |
| DonationWizard.Wizard.HandleCEPChange | src/app/doar/page.tsx:120-142 | the draft after the change, the messages cleared, and the loading flag down again |
| DonationWizard.Wizard.TogglePersonality | src/app/doar/page.tsx:144-153 | the personality list becomes its toggle and its message is blanked |
| DonationWizard.Wizard.ValidateStep | src/app/doar/page.tsx:155-189 | the messages become the step's errors, and the result is true exactly when the rules hold |
| DonationWizard.Wizard.NextStep | src/app/doar/page.tsx:191-195 | the step becomes `NextStepOf` and stays within 1 to 4 |
| DonationWizard.Wizard.PrevStep | src/app/doar/page.tsx:197-199 | the step becomes `PrevStepOf`. Draft and messages are kept |
| DonationWizard.Wizard.HandleSubmit | src/app/doar/page.tsx:201-237 | a failed validation stores nothing. Otherwise exactly one built record is appended after the old ones, and success shows |
| DonationWizard.Wizard.RegisterAnother | src/app/doar/page.tsx:261-265 | a fresh draft at step 1 without the success screen. The messages and the stored list are kept |

## Left out

- The `fetch` call and JSON decoding (src/lib/cep.ts:27-28, 41-43) are a parameter. A thrown error and a failed decode both read as no response.
- FileReader's asynchronous reads (src/components/forms/ImageUpload.tsx:26-34):
  - Reads complete in the order they start, so the race in which reads complete out of order is not modelled.
  - A batch with a non-image among the considered files never reaches its target count. The model says `onChange` is not called. A later event cannot revive such a batch either.
- The two-second wait, the local-storage JSON round trip, `Date.now()` and `toISOString()` (src/app/doar/page.tsx:207-233) are out. The stored list is a field, and the id and time are parameters.
- The handlers run to completion one at a time. Two races are not modelled:
  - a CEP lookup still in flight when the user types again;
  - a second submit while the first waits. Only the disabled button guards it (line 854).

  So `isLoadingCEP` and `isSubmitting` are seen set only inside the handlers.
- ImageUpload.MoveImage: the model requires `from` to be in range. The page only passes indexes of shown photos, and an out-of-range `from` is not modelled.
- DonationWizard.Wizard.TogglePersonality: the method itself does not check the five-trait limit, and neither does the source. The bound is proved only under the button-disabling condition, in `TogglePreservesBound`.
- String length is sequence length, not UTF-16 code units. `trim` emptiness is "every character is JavaScript whitespace".
- The CEP input's `maxLength={9}` (src/app/doar/page.tsx:621) is not modelled. `HandleCEPChange` accepts any string.
- JSX, styling, scrolling (src/app/page.tsx:19), the step header and the success page text are out.
- `src/components/Hero.tsx`, `src/components/Header.tsx` and `src/app/layout.tsx` are not part of this model. They are rendering only.
- The mock cat list and the city list come from a module that is not part of this model. They are parameters.
