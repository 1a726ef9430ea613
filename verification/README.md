# SOS Iguaçu dashboard: a Dafny model of its data logic

The SOS Iguaçu front end keeps three collections for disaster relief:
volunteers, affected areas (each with a Brazilian postal code, the CEP) and
donations. Volunteers and donations may point at an area through `areaId`.
This project models and proves the logic behind the screens:

- **Aggregation** (`analytics.dfy`, from `src/hooks/useAnalytics.ts`). It covers the
  per-area counts of the pie and bar charts and the area ranking, which is a
  stable sort by total. It also covers the three percentage KPIs.
  `dashboard_example.dfy` states the figures the repository's tests expect
  for their sample data.
- **Exports** (`csv.dfy`, `exports.dfy`, from `src/utils/exports.ts`). The
  CSV rows are built and every cell is quoted with inner quotes doubled
  (rules 5 to 7 of section 2 of RFC 4180). Rows are joined by LF. A reader
  for that format proves that the text gives back the rows. The PDF title,
  head, body and table position are modelled, and so is the file name.
- **CEP lookup** (`cep.dfy`, from `src/utils/cep.ts` and `src/App.tsx`). It keeps the
  digits, makes no request unless there are exactly eight, and turns
  "not found" and any thrown error into null. The older variant in
  `src/App.tsx` only refuses an empty code.
- **Collection stores** (`area_store.dfy`, `volunteer_store.dfy`,
  `donation_store.dfy`, from `src/hooks/use*.ts`). Each is a class holding
  the list, the loading flag and the error, with load, add and (for areas)
  delete. Every backend call is an input: a settled outcome, or a function
  from the posted body to its outcome.
- **Pages** (`areas_page.dfy`, `volunteers_page.dfy`, `donations_page.dfy`).
  They cover the CEP search filter and the form handlers as classes over the
  form fields and their store. A handler first validates, then builds the
  record, posts it, clears the form on success and returns the alert text.
  `records.dfy` holds the record types, the area lookup `find(...)?.name`
  and the area picker options.
- **Legacy component** (`legacy_app.dfy`, from `src/App.tsx`). It creates
  records locally with generated ids and has its own CSV schema.

`text.dfy` models the JavaScript string operations the code relies on:
`trim`, the digit filter `replace(/[^0-9]/g, '')`, `includes` and
`String(n)`.

## Model

| member | source | states |
|---|---|---|
| Text.IsWhitespace | src/pages/Areas.tsx:19 | what `trim()` removes: among ASCII characters exactly tab, LF, vertical tab, form feed, CR and space; the zero-width space U+200B is kept |
| Text.Trim | src/pages/Areas.tsx:27 | the trimmed text is no longer than the input and neither starts nor ends with whitespace |
| Text.TrimSlice | src/pages/Areas.tsx:37-38 | the trimmed text is the slice of the input left after whitespace is cut from both ends |
| Text.BlankIff | src/pages/Areas.tsx:27 | `!s.trim()` holds exactly when every character is whitespace |
| Text.IsBlank | src/pages/Areas.tsx:27 | the empty string is blank, and a string that starts with a non-whitespace character is not |
| Text.TrimIdempotent | src/pages/Volunteers.tsx:25-28 | trimming twice gives the same text as trimming once |
| Text.Digits | src/utils/cep.ts:4 | the normalised code consists of digits only and is no longer than the input |
| Text.DigitsAppend | src/utils/cep.ts:4 | normalising a concatenation concatenates the normalised parts, so digits keep their order |
| Text.DigitsOfDigits | src/utils/cep.ts:4 | a string of digits is left unchanged |
| Text.DigitsOfNonDigits | src/pages/Areas.tsx:20 | a string without digits normalises to the empty string |
| Text.DigitsIdempotent | src/utils/cep.ts:4 | normalising twice is normalising once |
| Text.IncludesIff | src/pages/Areas.tsx:22 | `s.includes(p)` holds exactly when `p` occurs in `s` at some index |
| Text.Includes | src/pages/Areas.tsx:22 | a string includes any prefix of itself, and never a pattern longer than itself |
| Text.IncludesEmpty | src/pages/Areas.tsx:22 | every string includes the empty string |
| Text.NatToString | src/utils/exports.ts:102 | the numeral is non-empty, all digits, without a leading zero |
| Text.NatToStringValue | src/utils/exports.ts:102 | the decimal value of the numeral is the number |
| Text.IntToString | src/utils/exports.ts:102 | the numeral is non-empty and starts with '-' exactly when the number is negative |
| Text.IntToStringRoundTrip | src/utils/exports.ts:102 | `String(n)` is a numeral that reads back as `n`, sign included |
| Text.NegativeRoundTrip | src/utils/exports.ts:102 | the same for negative numbers, written with a leading minus |
| Records.IsLinked | src/hooks/useAnalytics.ts:48 | an `areaId` is truthy exactly when it is neither absent nor the empty string |
| Records.RefersTo | src/pages/Donations.tsx:76 | an absent reference matches no area; a match has the area's id, so it is truthy unless that id is empty |
| Records.OrEmpty | src/utils/exports.ts:79-81 | `x \|\| ''` is the value when present and '' when absent |
| Records.FindAreaIndex | src/utils/exports.ts:82 | `find` gives the first area whose id equals the reference, and none exactly when no area matches |
| Records.AreaNameOr | src/utils/exports.ts:82 | `find(...)?.name \|\| fallback` is the first matching area's name, or the fallback when the reference is absent, nothing matches or the name is empty |
| Records.AreaLabel | src/pages/Volunteers.tsx:103-114 | the area shown in the list is never empty: the first matching area's name, or '—' when no area matches or that name is empty |
| Records.AreaOptions | src/pages/Volunteers.tsx:42-48 | the picker is '— Nenhuma —' with value '' followed by one option per area, in order, labelled `name • cep` |
| Records.SelectedArea | src/pages/Volunteers.tsx:29 | `vArea \|\| null` is no area exactly for the empty selection, else the selected id |
| Records.SelectOptionRoundTrip | src/pages/Donations.tsx:36-42 | choosing the leading option gives no area, and choosing option k gives a reference to area k-1 |
| Api.MessageOf | src/hooks/useAreas.ts:34 | the message of an `Error`, else the fallback text |
| Analytics.VolunteerRefs | src/hooks/useAnalytics.ts:14 | the `areaId` of every volunteer, in order |
| Analytics.DonationRefs | src/hooks/useAnalytics.ts:23 | the `areaId` of every donation, in order |
| Analytics.CountRefs | src/hooks/useAnalytics.ts:14 | the count of `filter(x => x.areaId === id)` never exceeds the list length |
| Analytics.CountRefsIsMultiplicity | src/hooks/useAnalytics.ts:14 | the per-area count is the number of references equal to that id, so absent references never count |
| Analytics.VolunteersIn | src/hooks/useAnalytics.ts:14 | an area's volunteer count is the number of volunteers whose `areaId` is that area's id |
| Analytics.DonationsIn | src/hooks/useAnalytics.ts:23 | an area's donation count is the number of donations whose `areaId` is that area's id |
| Analytics.UnlinkedNeverCounted | src/hooks/useAnalytics.ts:14-24 | adding a volunteer or donation with no area changes no area's count |
| Analytics.PieData | src/hooks/useAnalytics.ts:10-17 | at most one entry per area, and every value is positive |
| Analytics.PieDataMembers | src/hooks/useAnalytics.ts:10-17 | an entry is in the pie exactly when some area has that name and that positive volunteer count |
| Analytics.PieDataAppend | src/hooks/useAnalytics.ts:11-16 | the pie of a concatenation of areas concatenates the pies, so entries follow area order |
| Analytics.BarData | src/hooks/useAnalytics.ts:20-26 | exactly one row per area, in order, with the area's name and its exact donation and volunteer counts; zero rows are kept |
| Analytics.PieIsBarWithoutZeros | src/hooks/useAnalytics.ts:10-26 | the pie is the bar rows with zero volunteers dropped, as (name, volunteers) pairs |
| Analytics.SumOverAreasIsMatched | src/hooks/useAnalytics.ts:24 | with distinct area ids, summing per-area counts counts each reference that matches some area once |
| Analytics.BarVolunteersAddUp | src/hooks/useAnalytics.ts:20-26 | with distinct area ids, the bar volunteer counts add up to the number of volunteers whose area exists |
| Analytics.RankEntryOf | src/hooks/useAnalytics.ts:31-40 | a ranking entry's total is its volunteers plus its donations |
| Analytics.RankEntries | src/hooks/useAnalytics.ts:30-41 | one entry per area, in area order, from that area's counts |
| Analytics.SortedByTotalIff | src/hooks/useAnalytics.ts:42 | each total being at least the next one's is the same as every total being at least all later ones |
| Analytics.InsertByTotal | src/hooks/useAnalytics.ts:42 | inserting into a list sorted by non-increasing total keeps it sorted |
| Analytics.InsertByTotalPermutes | src/hooks/useAnalytics.ts:42 | insertion adds the entry and loses none |
| Analytics.InsertByTotalStable | src/hooks/useAnalytics.ts:42 | among entries of equal total the inserted one comes first and the rest keep their order |
| Analytics.SortByTotal | src/hooks/useAnalytics.ts:42 | the result has the input's length and is sorted by non-increasing total |
| Analytics.SortByTotalPermutes | src/hooks/useAnalytics.ts:42 | the result is a permutation of the input |
| Analytics.SortByTotalStable | src/hooks/useAnalytics.ts:42 | the sort is stable: for every total, the entries with it keep their input order |
| Analytics.AreaRanking | src/hooks/useAnalytics.ts:29-43 | one entry per area, sorted by non-increasing total, a permutation of the unsorted entries, ties in area order, total = vols + dons |
| Analytics.RoundPercent | src/hooks/useAnalytics.ts:49 | the result is the integer nearest to 100·k/n with halves rounded up, at most 100 when k ≤ n, and 0 when n = 0 |
| Analytics.CountLinked | src/hooks/useAnalytics.ts:48 | the number of truthy references never exceeds the list length |
| Analytics.PercentLinked | src/hooks/useAnalytics.ts:46-50 | 0 for an empty list, else the rounded percentage of truthy references, never above 100 |
| Analytics.CountLinkedAll | src/hooks/useAnalytics.ts:48 | when every reference is truthy all are counted |
| Analytics.CountLinkedNone | src/hooks/useAnalytics.ts:48 | when none is truthy none is counted |
| Analytics.CountLinkedAppend | src/hooks/useAnalytics.ts:48 | the linked count of two lists together is the sum of their linked counts |
| Analytics.RoundPercentOfWhole | src/hooks/useAnalytics.ts:49 | n of n rounds to 100 |
| Analytics.RoundPercentOfNothing | src/hooks/useAnalytics.ts:49 | 0 of n rounds to 0 |
| Analytics.PercentLinkedExtremes | src/hooks/useAnalytics.ts:46-50 | all linked gives 100 and none linked gives 0 |
| Analytics.KpiPercentVolWithArea | src/hooks/useAnalytics.ts:46-50 | 0 for no volunteers, else the rounded share of volunteers with a truthy `areaId`, within 0..100 |
| Analytics.KpiPercentDonationsLinked | src/hooks/useAnalytics.ts:58-62 | 0 for no donations, else the rounded share of donations with a truthy `areaId`, within 0..100 |
| Analytics.AnyRefersTo | src/hooks/useAnalytics.ts:54 | `donations.some(d => d.areaId === a.id)` holds exactly when some reference equals the area's id |
| Analytics.AreasWithDonation | src/hooks/useAnalytics.ts:54 | the number of areas with a donation never exceeds the number of areas |
| Analytics.AreasWithDonationAppend | src/hooks/useAnalytics.ts:54 | the covered-area count of two runs of areas is the sum of their counts, each area counted on its own |
| Analytics.KpiPercentAreasWithDon | src/hooks/useAnalytics.ts:52-56 | 0 for no areas, else the rounded share of areas some donation points at, within 0..100 |
| Analytics.AreasWithDonationSameRefs | src/hooks/useAnalytics.ts:54 | two reference lists that cover the same areas give the same count |
| Analytics.DonationForCoveredAreaKeepsKpi | src/hooks/useAnalytics.ts:54 | an area counts once: another donation for an already covered area leaves the KPI unchanged |
| DashboardExample.KpiExample | src/App.test.tsx:108-125 | the sample data gives 67%, 50% and 67%, and empty data gives 0% three times |
| DashboardExample.SampleAreaCounts | src/App.test.tsx:132-143 | in the sample Area X has one volunteer and two donations, Area Y one volunteer and none |
| DashboardExample.RankingExample | src/App.test.tsx:132-143 | the sample ranking is Area X (1 + 2 = 3) then Area Y (1 + 0 = 1) |
| Csv.Escape | src/utils/exports.ts:109 | escaping never shortens a cell |
| Csv.QuoteCell | src/utils/exports.ts:109 | a quoted cell begins and ends with a double quote |
| Csv.EscapeQuoteFree | src/utils/exports.ts:109 | a cell without double quotes is written unchanged between the quotes |
| Csv.RenderRow | src/utils/exports.ts:109 | a row renders as the empty text exactly when it has no cells; otherwise the text begins and ends with a double quote |
| Csv.RenderTable | src/utils/exports.ts:108-110 | no rows give the empty text |
| Csv.RenderTableFirstLine | src/utils/exports.ts:108-110 | the text begins with the first row, followed by a newline when more rows follow |
| Csv.ReadQuoted | src/utils/exports.ts:109 | reading a quoted cell consumes input |
| Csv.ParseCell | src/utils/exports.ts:109 | reading a cell consumes input |
| Csv.ParseTable | src/utils/exports.ts:108-110 | every table read has at least one row and every row at least one cell |
| Csv.ReadEscaped | src/utils/exports.ts:109 | undoubling the quotes of an escaped cell gives the cell back, up to its closing quote |
| Csv.QuoteCellRead | src/utils/exports.ts:109 | a quoted cell reads back as the cell, followed by what comes after it |
| Csv.QuoteCellRoundTrip | src/utils/exports.ts:109 | stripping the outer quotes and undoubling the inner ones recovers the original cell |
| Csv.ParseRenderRow | src/utils/exports.ts:109 | a rendered row, then a newline and more rows, reads back as that row then those rows |
| Csv.ParseRender | src/utils/exports.ts:108-110 | reading the joined text gives back exactly the rows written |
| Exports.CsvRecord | src/utils/exports.ts:76-104 | each record row is as wide as its header |
| Exports.CsvRows | src/utils/exports.ts:73-106 | the header row comes first, then one row per record in list order, all as wide as the header |
| Exports.TypeName | src/utils/exports.ts:116 | the kind's name in the file name is never empty |
| Exports.CsvHeader | src/utils/exports.ts:75-98 | every CSV header starts with `id`, has at least four columns and no repeated name |
| Exports.GenerateCsv | src/utils/exports.ts:108-110 | the text starts with the quoted header line, and with that line and a newline when there is a record |
| Exports.GenerateCsvRoundTrip | src/utils/exports.ts:108-110 | the CSV text reads back as n+1 rows: the header, then each record's cells unchanged |
| Exports.EmptyExportIsHeaderOnly | src/utils/exports.ts:73-110 | an empty collection exports the header line alone |
| Exports.VolunteerCsvExample | src/App.test.tsx:146-155 | the sample volunteers export as the rows the test expects, with '' for the volunteer without an area |
| Exports.PdfRecord | src/utils/exports.ts:20-50 | each body row is as wide as the head |
| Exports.PdfTitle | src/utils/exports.ts:18-43 | every title is 'Relatório de ' followed by a non-empty kind name |
| Exports.PdfHeader | src/utils/exports.ts:19-44 | the PDF head has as many columns as the CSV header, starts with 'ID' and repeats no caption |
| Exports.GeneratePdf | src/utils/exports.ts:17-60 | the kind's title and head, one body row per record in order, and the table at startY 20 |
| Exports.PlaceholderForEmpty | src/utils/exports.ts:26 | the PDF's area cell is the CSV's, with '—' instead of '' |
| Exports.PdfRecordAgreesWithCsv | src/utils/exports.ts:20-104 | for one record, each PDF cell holds the CSV cell's text, except '—' for an empty area cell and the number itself for the quantity |
| Exports.PdfAgreesWithCsv | src/utils/exports.ts:20-104 | cell by cell the PDF body holds the CSV row's text, except '—' for an empty area cell and the number itself for the quantity |
| Exports.AreasPdfExample | src/App.test.tsx:177-181 | the sample areas give the head and body rows the test expects, at startY 20 |
| Exports.DatePart | src/utils/exports.ts:116 | the date part is the first ten characters of the timestamp |
| Exports.ExportFileName | src/utils/exports.ts:116 | the file name is the kind, '_', the date part, '.', then the extension |
| Cep.FromReply | src/utils/cep.ts:10-14 | a reply yields a result exactly when it is a JSON body without `erro`, and then the body unchanged |
| Cep.CepUrl | src/utils/cep.ts:8 | the URL is the ViaCEP prefix, the code, then `/json/`, and the code is the part between them |
| Cep.CepUrlInjective | src/utils/cep.ts:8 | different codes are requested at different URLs |
| Cep.LookupCep | src/utils/cep.ts:3-15 | null unless the input has exactly eight digits; otherwise the mapped reply to the URL built from those digits |
| Cep.GatedCodesMakeNoRequest | src/utils/cep.ts:5 | for a code that is not eight digits the answer is null whatever the service would say |
| Cep.OnlyNormalisedCodeIsRequested | src/utils/cep.ts:8 | only the URL of the normalised code is consulted, so inputs with the same digits get the same answer |
| Cep.HyphenatedCodeIsNormalised | src/utils/cep.ts:4-8 | `NNNNN-NNN` is looked up as its eight digits run together |
| Cep.LegacyLookupCep | src/App.tsx:75-87 | null only for an empty digit string; otherwise the mapped reply for those digits, whatever their number |
| Cep.LookupVariantsAgreeOnEightDigits | src/App.tsx:77 | the two lookups agree on eight-digit codes |
| AreaStore.RemoveId | src/hooks/useAreas.ts:43 | an area remains exactly when it was there and its id differs |
| AreaStore.RemoveIdAppend | src/hooks/useAreas.ts:43 | filtering distributes over concatenation, so the remaining areas keep their order |
| AreaStore.RemoveAbsentId | src/hooks/useAreas.ts:43 | deleting an id no area has leaves the list unchanged |
| AreaStore.RemoveIdIdempotent | src/hooks/useAreas.ts:43 | deleting twice is deleting once |
| AreaStore.DeleteUndoesAdd | src/hooks/useAreas.ts:31-43 | deleting a freshly added area with a new id restores the earlier list |
| AreaStore.Store.constructor | src/hooks/useAreas.ts:6-8 | the store starts with no areas, loading, and no error |
| AreaStore.Store.Load | src/hooks/useAreas.ts:14-26 | success replaces the list and clears the error; failure keeps the list and sets the message; loading ends false |
| AreaStore.Store.Add | src/hooks/useAreas.ts:28-38 | success puts the saved area first and returns it; failure keeps the list, sets the error and rethrows the same message |
| AreaStore.Store.Delete | src/hooks/useAreas.ts:40-49 | success removes every area with the id and keeps the rest in order; failure keeps the list, sets the error and rethrows |
| VolunteerStore.Store.constructor | src/hooks/useVolunteers.ts:6-8 | the store starts with no volunteers, loading, and no error |
| VolunteerStore.Store.Load | src/hooks/useVolunteers.ts:14-26 | success replaces the list and clears the error; failure keeps the list and sets the message; loading ends false |
| VolunteerStore.Store.Add | src/hooks/useVolunteers.ts:28-38 | success puts the saved volunteer first and returns it; failure keeps the list, sets the error and rethrows the same message |
| DonationStore.Store.constructor | src/hooks/useDonations.ts:6-8 | the store starts with no donations, loading, and no error |
| DonationStore.Store.Load | src/hooks/useDonations.ts:14-26 | success replaces the list and clears the error; failure keeps the list and sets the message; loading ends false |
| DonationStore.Store.Add | src/hooks/useDonations.ts:28-38 | success puts the saved donation first and returns it; failure keeps the list, sets the error and rethrows the same message |
| AreasPage.KeepCepMatches | src/pages/Areas.tsx:21-23 | an area is kept exactly when it was listed and its CEP digits contain the code |
| AreasPage.FilteredAreas | src/pages/Areas.tsx:18-24 | a blank search returns the list itself; otherwise exactly the areas whose CEP digits contain the search digits |
| AreasPage.KeepCepMatchesAppend | src/pages/Areas.tsx:21-23 | filtering distributes over concatenation |
| AreasPage.FilterKeepsOrder | src/App.tsx:106 | the search filter (the same in both components) keeps list order |
| AreasPage.KeepCepMatchesEmpty | src/pages/Areas.tsx:22 | an empty code keeps every area |
| AreasPage.SearchWithoutDigitsKeepsAll | src/pages/Areas.tsx:20-23 | a search with no digit keeps every area |
| AreasPage.NewAreaDraft | src/pages/Areas.tsx:36-43 | trimmed name and CEP; city and state from the lookup's `localidade` and `uf`, absent when the lookup gave null |
| AreasPage.Form.constructor | src/pages/Areas.tsx:14-16 | the form starts empty |
| AreasPage.Form.Submit | src/pages/Areas.tsx:26-53 | blank name or CEP: alert and nothing changes; otherwise the area built from the lookup is posted, with the outcome as in `Save` |
| AreasPage.Form.Save | src/pages/Areas.tsx:32-52 | success: the saved area comes first and the form is cleared; failure: list and fields kept, status 'Erro ao consultar CEP', the store's message shown |
| AreasPage.Form.Delete | src/pages/Areas.tsx:55-62 | without confirmation nothing happens; otherwise the store's delete, with its message shown on failure |
| VolunteersPage.OptionalField | src/pages/Volunteers.tsx:26-28 | an optional text is absent exactly when blank, else trimmed and non-empty |
| VolunteersPage.NewVolunteerDraft | src/pages/Volunteers.tsx:24-30 | trimmed name, optional fields trimmed or absent, and no area when none is selected |
| VolunteersPage.DraftHasNoEmptyFields | src/pages/Volunteers.tsx:25-29 | a posted volunteer has no empty optional text and is linked exactly when an area was selected |
| VolunteersPage.Form.constructor | src/pages/Volunteers.tsx:11-15 | the form starts empty |
| VolunteersPage.Form.Submit | src/pages/Volunteers.tsx:17-40 | blank name: alert and nothing changes; otherwise the built volunteer is posted, with the outcome as in `Save` |
| VolunteersPage.Form.Save | src/pages/Volunteers.tsx:23-39 | success: the saved volunteer comes first and the form is cleared; failure: list and fields kept, the store's message shown |
| DonationsPage.NewDonationDraft | src/pages/Donations.tsx:22-26 | trimmed description, the quantity unchanged, no area when none is selected |
| DonationsPage.Rejected | src/pages/Donations.tsx:16 | a donation is refused exactly when its description is all whitespace or its quantity is not positive |
| DonationsPage.AcceptedDraftIsWellFormed | src/pages/Donations.tsx:16-26 | whatever passes the check is posted with a non-empty description and a positive quantity |
| DonationsPage.Form.constructor | src/pages/Donations.tsx:11-13 | the form starts with an empty description, quantity 1 and no area |
| DonationsPage.Form.Submit | src/pages/Donations.tsx:15-34 | blank description or quantity ≤ 0: alert and nothing changes; otherwise the built donation is posted, with the outcome as in `Save` |
| DonationsPage.Form.Save | src/pages/Donations.tsx:21-33 | success: the saved donation comes first and the form resets to '', 1, ''; failure: list and fields kept, the store's message shown |
| LegacyApp.Uid | src/App.tsx:31 | an id is the prefix, '_', then the suffix |
| LegacyApp.NewVolunteer | src/App.tsx:69 | trimmed fields with empty strings kept (not absent), and no area when none is selected |
| LegacyApp.NewArea | src/App.tsx:92-93 | trimmed name and CEP; city and state from the looser lookup of the CEP input, absent when it gave null |
| LegacyApp.NewDonation | src/App.tsx:101 | trimmed description, the quantity unchanged, no area when none is selected |
| LegacyApp.NewAreaMatchesPage | src/App.tsx:89-97 | for an eight-digit CEP the component creates the area the area page posts |
| LegacyApp.App.constructor | src/App.tsx:51-63 | starts from the given lists with empty inputs and quantity 1 |
| LegacyApp.App.AddVolunteer | src/App.tsx:67-72 | blank name: alert and nothing changes; otherwise the new volunteer comes first and the volunteer inputs are cleared |
| LegacyApp.App.CommitVolunteer | src/App.tsx:70-71 | the volunteer is put first and only the volunteer inputs are cleared |
| LegacyApp.App.AddArea | src/App.tsx:89-97 | blank name or CEP: alert and nothing changes; otherwise the area comes first whatever the lookup gave and the inputs and status are cleared |
| LegacyApp.App.CreateArea | src/App.tsx:91-96 | the looked-up area built from the inputs comes first and only the area inputs and status are cleared |
| LegacyApp.App.CommitArea | src/App.tsx:95-96 | the area is put first and only the area inputs and status are cleared |
| LegacyApp.App.AddDonation | src/App.tsx:99-104 | blank description or quantity ≤ 0: alert and nothing changes; otherwise the donation comes first and the inputs reset to '', 1, '' |
| LegacyApp.App.CommitDonation | src/App.tsx:102-103 | the donation is put first and only the donation inputs are reset |
| LegacyApp.LegacyCsvRecord | src/App.tsx:110-116 | each record row is as wide as its header |
| LegacyApp.LegacyCsvHeader | src/App.tsx:111-115 | the export module's header, with `areaId` for the area column and, for areas, `lat` and `lng` appended |
| LegacyApp.LegacyCsvRows | src/App.tsx:110-116 | the header row first, then one row per record in list order |
| LegacyApp.LegacyCsv | src/App.tsx:117 | the text starts with the quoted legacy header line, and with that line and a newline when there is a record |
| LegacyApp.LegacyCsvRoundTrip | src/App.tsx:117 | the text reads back as exactly those rows, under the same quoting and joining |
| LegacyApp.LegacyRowsAgainstExport | src/App.tsx:111-115 | the legacy rows match the export module's except for the raw `areaId` in place of the area name and the two extra area cells |

## Left out

- Network I/O. This covers the HTTP wrapper `src/services/api.ts`, the
  ViaCEP `fetch` and the JSON decoding. Each backend call is an input:
  its settled outcome, or a function from the request to its outcome.
  The error text that wrapper builds (`Erro na requisição: ...`) reaches
  the model only as the message of such an outcome.
- Component lifecycle and rendering. This covers the `useEffect` that
  loads on mount, `useMemo` caching and the JSX. React's batching of
  state updates is also out: the `loading = true` state inside `Load` is
  not observable once the method returns.
- Downloads and drawing: the Blob, the object URL, the anchor click, and
  the jsPDF/autoTable calls and `doc.save`. The model stops at the CSV
  text and at the title, head, body, font size, title position and startY.
- The clock: the ISO timestamp is a parameter. Randomness: the `uid`
  suffix is a parameter.
- Floating point. `Math.round(k / n * 100)` is exact round-half-up, which
  may differ from binary floating point at a .5 boundary. A quantity is an
  integer, so fractional, NaN or infinite numbers and their `String` forms
  are not modelled.
- Latitude and longitude, the map and reverse geocoding
  (`src/hooks/useMap.ts`, `components/Map/MapView.tsx`).
- LegacyApp.LegacyCsvRecord: the `lat`/`lng` cells are always ''. The model
  has no coordinates. '' is what the component writes for the areas it
  creates itself, but not for coordinates loaded from storage.
- Local-storage persistence in `src/App.tsx`. The legacy component starts
  from lists given to its constructor. Its `cepSearch` input is not a
  field, and its filter is `AreasPage.FilteredAreas`, which is identical
  to the one at `src/App.tsx:106`.
- Dialogs. `alert` is the message a handler returns. `confirm` is a
  boolean input.
- The record schema in `src/types/index.ts`. Its field names differ from
  those the logic reads. The model uses the shapes at `src/App.tsx:5-29`.
- Presentation-only pages and components: the dashboard, the analytics
  and reports pages, the layout and UI components, and the constants.
- Area deletion does not cascade. One might expect deleting an area to
  clear `areaId` on the volunteers and donations that point at it. No code
  does this: `deleteArea` only filters the area list, and the model does
  the same.
- Counting linked records tests truthiness, not merely that `areaId` is
  present. A record whose `areaId` is '' is not counted as linked.
- Catch-all fallbacks that cannot be reached are modelled as written
  ('Erro ao salvar área', 'Erro ao salvar voluntário', 'Erro ao salvar
  doação'). The stores always rethrow an `Error`, so the page shows the
  store's message. On the area page the status 'Erro ao consultar CEP'
  also appears when it is the save that failed, because the lookup never
  throws.
- Text.IntToString: `String(n)` is modelled for unbounded integers in plain
  decimal. JavaScript numbers are doubles: from 1e21 up `String` switches to
  exponent form (`1e+21`), and above 2^53 not every integer is exact.
- Text.IntToStringRoundTrip: the round trip is stated for the plain decimal
  numeral only, so it does not cover the exponent form or precision loss
  of very large quantities.
- Text.NegativeRoundTrip: the same limit as `Text.IntToStringRoundTrip`,
  for negative numbers.
- Exports.VolunteerCsvExample: states the rows of the sample export, not
  the literal CSV text the test compares. The text is those rows joined by
  `Csv.RenderTable`. `Csv.EscapeQuoteFree` shows that its quote-free cells
  are written unchanged between quotes, and `Exports.GenerateCsvRoundTrip`
  reads it back as the same rows. Equality with the long string literal
  itself is beyond the proof budget.
