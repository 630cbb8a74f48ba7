# Nanas Foundation website: a verified model of its controllers

Nanas Foundation's website is an ASP.NET Core MVC application for a charity.
Visitors see upcoming events and blog posts and sign up as volunteers.
Signed-in users donate through a hosted card-payment checkout.
Administrators manage events and see a dashboard of monthly donation totals.
This project models the decision logic of that site in Dafny and proves what each action promises.

- **Donations** (`Donations`, `DonationModel`, `Money`):
  - The constructor requires both checkout URLs.
  - Three actions are gated on sign-in: the donation form, the start of a checkout session and the confirmation callback.
  - A session request carries the amount in cents, rounded half to even.
  - The confirmation callback needs status "paid", in any case. It then settles the amount: the session total, else the first line item's first non-null amount. A paid, positive, saved confirmation stores exactly one donation.
  - The `Donation` entity's data annotations are modelled as the validator applies them.
- **Events** (`Events`, `EventModel`):
  - The administrators' list searches Title and Location, orders newest first and cuts pages of ten.
  - Create, edit and delete work on the keyed `Events` table.
  - The JSON details of one event give its date as "yyyy-MM-dd".
- **Volunteers** (`Volunteers`): the sign-up form lists upcoming events earliest first. A sign-up adds a (user, event) row only when that pair is not yet recorded.
- **Home page** (`Home`, `Schedule`): the next upcoming event, and the four next events and four newest posts.
- **Dashboard** (`Dashboard`): the current year's donations grouped by month, summed, and ordered by month.
- **Blog** (`Blog`):
  - Publishing a post needs a valid form and a PDF.
  - Each upload is stored under `uploads/blogs` with a fresh identifier and its own extension. The post keeps the upload's public path, "/" plus the relative path with every '\' turned into '/'.
  - A post without a photo gets a default avatar.

Supporting modules:
- `Linq`: the LINQ operators the queries use. `Where`, `OrderBy` modelled as a stable insertion sort, `Take` and `Skip`, each with its laws. The database's order of rows with equal keys is unspecified: the lemmas about what is shown hold for any order of ties, while the members named under "Order of ties" below fix the stable one.
- `Calendar`: `DateTime` as calendar fields with chronological order and the "yyyy-MM-dd" format.
- `Guids`: identifiers, their "D" text in .NET (lower case) and in SQL Server (upper case).
- `Text`: the .NET string predicates the code calls.
- `Data`: the database as a class whose tables are sequences.
- `Mvc`: the action results.

Decimal amounts are exact `real`s. The clock, fresh identifiers, the signed-in flag, the gateway's replies and whether a save commits are all parameters.

Three behaviours of the code differ from what a reader might expect; the model follows the code in each:
- **Reconciling the amount.** The confirmation callback takes the first line-item amount that is present, not the first positive one. A zero unit price with a positive subtotal therefore records nothing (`RecordedAmountIsReconciled`, `LineItemFallback`).
- **The range rule.** `[Range(1, 10000000)]` converts the decimal amount to an integer with banker's rounding before comparing. So 0.5 fails, 0.6 passes and 10,000,000.5 passes (`AmountInRange`). Not every amount in (0, 10,000,000] starts a checkout: the form also needs a bank, card number, name on card and CVC.
- **The CVC message.** The message says "3-4 digits", but the rule accepts 3 to 10 characters. The model keeps the rule.

## Model

| member | source | states |
|---|---|---|
| Wrappers.Coalesce | Controllers/DonationsController.cs:162 | `a ?? b` is present iff either operand is, and is `a` when `a` is present, else `b` |
| Money.RoundHalfEven | Controllers/DonationsController.cs:70 | `Math.Round` gives an integer within 0.5 of its argument, and the even one at a tie |
| Money.RoundHalfEvenIsUnique | Controllers/DonationsController.cs:70 | any integer meeting those two conditions is the rounded value, so the contract fully pins `Math.Round` down |
| Money.ToCents | Controllers/DonationsController.cs:70 | the cents value is within half a cent of amount × 100 |
| Money.FromCents | Controllers/DonationsController.cs:173 | `cents / 100m` is the amount whose hundredfold is the cents |
| Money.CentsRoundTrip | Controllers/DonationsController.cs:173 | converting cents to rand and back returns the same cents |
| Money.WholeCentsRoundTrip | Controllers/DonationsController.cs:70 | an amount survives the rand to cents to rand round trip iff it is a whole number of cents |
| Text.ReplaceChar | Controllers/BlogController.cs:50 | `Replace("\\", "/")` keeps the length, rewrites exactly the '\' positions, and leaves no '\' |
| Text.ReplaceCharAppend | Controllers/BlogController.cs:50 | replacing distributes over concatenation |
| Text.ReplaceAbsentChar | Controllers/BlogController.cs:50 | replacing a character that does not occur changes nothing |
| Text.ReplaceInJoin | Controllers/BlogController.cs:41-50 | in folder + separator + clean name + extension, only the separator and the extension are rewritten |
| Text.FoldCase | Controllers/DonationsController.cs:139 | the ordinal case folding maps 'a'..'z' onto 'A'..'Z' and leaves every other character alone |
| Calendar.AtOrBeforeIsTotalOrder | Controllers/HomeController.cs:23-24 | the `DateTime` comparison the queries filter and sort with is reflexive, total, antisymmetric and transitive |
| Calendar.Pow10 | Controllers/EventController.cs:109 | powers of ten are positive |
| Calendar.Digits | Controllers/EventController.cs:109 | a zero-padded field of the date format has exactly its width, all decimal digits |
| Calendar.DigitsRoundTrip | Controllers/EventController.cs:109 | reading back a zero-padded field gives the number whenever it fits the width |
| Calendar.FormatDate | Controllers/EventController.cs:109 | "yyyy-MM-dd" is ten characters with '-' at positions 4 and 7 |
| Calendar.FormatDateRoundTrip | Controllers/EventController.cs:109 | the formatted date is all digits apart from the two '-', and parses back to the event's year, month and day |
| Guids.Hex | Controllers/BlogController.cs:41 | a hexadecimal field of the "D" format has exactly its width, all lower-case hexadecimal digits |
| Guids.ToText | Controllers/BlogController.cs:41 | `Guid.ToString()` in .NET is 36 characters, lower-case hexadecimal digits with '-' at 8, 13, 18 and 23 |
| Guids.ToSqlText | Controllers/VolunteersController.cs:33 | `Guid.ToString()` translated into a query is the same 36-character layout with upper-case hexadecimal digits, and equals the .NET text up to letter case |
| DonationModel.NewDonation | Models/Donation.cs:15-34 | a new donation has empty strings for its four text fields and the current time as its date |
| DonationModel.StringRule | Models/Donation.cs:17-31 | a `[Required]` + `[StringLength]` property has no error iff it is not blank and its length is within bounds, and an error names the property |
| DonationModel.RuleError | Models/Donation.cs:12-34 | each property reports no error iff its annotations hold, and any error names that property |
| DonationModel.Members | Models/Donation.cs:12-34 | the member names of a validation result correspond one to one with its errors |
| DonationModel.MembersAppend | Models/Donation.cs:12-34 | the member names of concatenated results concatenate |
| DonationModel.CollectCount | Models/Donation.cs:12-34 | collecting rule results over distinct properties reports a property once if it is listed and fails, otherwise never |
| DonationModel.PropertiesListEveryMember | Models/Donation.cs:12-34 | every annotated property is validated, and each only once |
| DonationModel.ValidationReportsEachFailingPropertyOnce | Models/Donation.cs:12-34 | `TryValidateObject` reports each failing property exactly once and each valid property not at all |
| DonationModel.NoErrorsIffValid | Models/Donation.cs:12-34 | the validator returns no errors iff every property's annotations hold |
| DonationModel.ValidIffAllRulesHold | Models/Donation.cs:12-34 | a donation is valid iff the amount is in range, Bank is required and ≤ 100, CardNumber is required and 12..50, NameOnCard is required and ≤ 100, and CVC is required and 3..10 |
| DonationModel.WholeAmountRange | Models/Donation.cs:14 | on whole amounts the range rule is exactly 1 ≤ n ≤ 10,000,000, so 0, −50 and 10,000,001 fail |
| DonationModel.ValidAmountCents | Models/Donation.cs:14 | a valid amount is 50 to 1,000,000,050 cents, which fits the 64-bit conversion |
| DonationModel.DefaultDonationIsInvalid | Models/Donation.cs:15-34 | a default donation is invalid, with exactly one error on Amount and one on Bank |
| EventModel.NewEvent | Models/Event.cs:7-19 | a new event has the supplied fresh id, was created now, and has no title, description or location |
| EventModel.ValidationErrors | Models/Event.cs:9-17 | validation reports at most a Title error, and none iff the title is not null, empty or white space |
| EventModel.ValidityDependsOnTitleOnly | Models/Event.cs:12-19 | description and location (null included), date and creation time never affect validity |
| EventModel.NewEventNeedsTitle | Models/Event.cs:7-19 | a new event is invalid until it has a title, and its creation time is no later than now |
| Data.AppDb.constructor | Data/ApplicationDbContext.cs:8-11 | a new database has empty tables and satisfies its key invariants |
| Data.AppDb.AddDonation | Controllers/DonationsController.cs:191-192 | `Add` + `SaveChanges` appends the row with the next identity value and keeps identities increasing |
| Linq.Where | Controllers/EventController.cs:29-31 | `Where` keeps only elements satisfying the predicate and is no longer than its input |
| Linq.WhereCount | Controllers/EventController.cs:29-31 | `Where` keeps every satisfying element as often as the input has it, and drops the others |
| Linq.WhereMembership | Controllers/EventController.cs:29-31 | an element is in the result iff it is in the input and satisfies the predicate |
| Linq.WhereAll | Controllers/EventController.cs:29-31 | filtering by a predicate every element meets changes nothing |
| Linq.WhereDropsOne | Controllers/EventController.cs:95 | filtering out the one element that fails the predicate splices it out |
| Linq.WhereAppend | Areas/Admin/Controllers/DashboardController.cs:24 | filtering distributes over concatenation |
| Linq.InsertPermutes | Controllers/EventController.cs:35 | an insertion step adds exactly the inserted element |
| Linq.InsertSorted | Controllers/EventController.cs:35 | under a total preorder an insertion step keeps the sequence sorted |
| Linq.SortPermutes | Controllers/EventController.cs:35 | `OrderBy` rearranges its input: same elements, same multiplicities |
| Linq.SortSorted | Controllers/EventController.cs:35 | under a total preorder `OrderBy`'s result is sorted |
| Linq.InsertKeepsDistinct | Areas/Admin/Controllers/DashboardController.cs:32 | an insertion step of a new element keeps elements distinct |
| Linq.SortKeepsDistinct | Areas/Admin/Controllers/DashboardController.cs:32 | sorting distinct elements keeps them distinct |
| Linq.Take | Controllers/HomeController.cs:81 | `Take(n)` is a prefix of length min(n, size), or empty for n ≤ 0 |
| Linq.SkipTakeSlice | Controllers/EventController.cs:36 | `Skip(start).Take(size)` is the slice from start, cut short at the end |
| Linq.TakeComesFirst | Controllers/HomeController.cs:80-81 | of a sorted sequence, everything `Take(n)` keeps may precede everything it leaves, and the two parts make up the whole |
| Linq.TakeOfSorted | Controllers/HomeController.cs:80-81 | `Take(n)` of a sorted sequence is sorted and element-wise its prefix |
| Linq.Skip | Controllers/EventController.cs:36 | `Take(n)` followed by `Skip(n)` is the whole sequence |
| Schedule.EarlierFirstIsPreorder | Controllers/HomeController.cs:24 | `OrderBy(e => e.Date)` compares with a total preorder |
| Schedule.UpcomingIsSortedSelection | Controllers/HomeController.cs:22-24 | the upcoming list holds exactly the events dated today or later, with their multiplicities, in ascending date order |
| Donations.LoadConfig | Controllers/DonationsController.cs:27-30 | construction succeeds iff both URLs are configured, and otherwise fails naming the first missing one |
| Donations.MetadataBank | Controllers/DonationsController.cs:97 | the metadata bank is the form's bank, or "N/A" when it is null |
| Donations.BuildSessionRequest | Controllers/DonationsController.cs:70-98 | one line item, unit amount = rounded cents, quantity 1, currency "zar", bank metadata, success URL with the session-id placeholder, the cancel URL |
| Donations.ValidFormSessionRequest | Controllers/DonationsController.cs:60-98 | for a valid form the charge is 50 to 1,000,000,050 cents, within half a cent of the amount, and carries the form's own bank |
| Donations.CheckoutUrl | Controllers/DonationsController.cs:104-108 | the redirect is the session URL when non-empty, otherwise the checkout page built from the session id |
| Donations.GatewayCalledOnlyForValidForms | Controllers/DonationsController.cs:54-108 | the gateway is called iff the caller is signed in and the form is valid, always with the request built from the form; checkout is reached iff the call also returns |
| Donations.ItemCents | Controllers/DonationsController.cs:155-162 | the line-item amount is the unit price if present, else the subtotal if present, else the item total (present or not): the first non-null, whatever its sign |
| Donations.ResolveCents | Controllers/DonationsController.cs:147-164 | a positive session total is kept; otherwise the first line item decides; with no line item the total stays as it was |
| Donations.BankFromMetadata | Controllers/DonationsController.cs:176-182 | the stored bank is metadata["bank"] when the key is there with a non-null value, otherwise "Stripe" |
| Donations.RecordedOnlyWhenPaid | Controllers/DonationsController.cs:122-192 | a donation is recorded only for a signed-in caller, a non-empty session id, a retrieved session with status "paid", a positive amount and a successful save |
| Donations.RecordedAmountIsReconciled | Controllers/DonationsController.cs:147-187 | the recorded cents are the positive session total, or else the first line item's first present amount; the bank comes from the metadata |
| Donations.PaidSessionWithTotalIsRecorded | Controllers/DonationsController.cs:139-196 | a paid session with a positive total is recorded with exactly that total when the save succeeds |
| Donations.LineItemFallback | Controllers/DonationsController.cs:148-171 | without a positive total the donation is recorded iff the first line item's first present amount is positive, and then with that amount |
| Donations.ConfirmationNotice | Controllers/DonationsController.cs:122-209 | the callback leaves a TempData notice in every case except a recorded donation |
| Donations.ConfirmationResult | Controllers/DonationsController.cs:122-209 | sign-in failure goes to Home/Index, success to ThankYou, every other outcome back to Create |
| Donations.RecordedDonation | Controllers/DonationsController.cs:173-189 | the stored row has amount = cents / 100, the resolved bank and the confirmation time |
| Donations.InitiationNotice | Controllers/DonationsController.cs:54-115 | POST Create leaves a notice in every case except the redirect to checkout |
| Donations.InitiationResult | Controllers/DonationsController.cs:54-115 | a signed-out caller goes to Home/Index, checkout is a redirect, an invalid form or a failed gateway call shows the form again |
| Donations.DonationsController.constructor | Controllers/DonationsController.cs:22-32 | the controller starts with the loaded configuration and no notices |
| Donations.DonationsController.CreateForm | Controllers/DonationsController.cs:35-46 | signed in: the form and no notice; signed out: Home/Index with the sign-in notice |
| Donations.DonationsController.Create | Controllers/DonationsController.cs:50-116 | the result, the notice and the request sent (none unless signed in with a valid form) are those `Initiate` decides, and no table changes |
| Donations.DonationsController.Success | Controllers/DonationsController.cs:119-210 | the result and notice follow `Confirm`; the donations table gains exactly the confirmed row when the decision is Recorded, and nothing otherwise; keys stay valid |
| Donations.DonationsController.Fail | Controllers/DonationsController.cs:198-209 | a gateway exception and any other exception each redirect to Create with their own message |
| Donations.ConfirmTwice | Controllers/DonationsController.cs:119-196 | nothing stops a session from being confirmed twice: two callbacks store two donations |
| Events.SearchSelects | Controllers/EventController.cs:27-32 | a blank search selects every event; otherwise an event is selected iff its title or location contains the term, with its multiplicity |
| Events.LaterFirstIsPreorder | Controllers/EventController.cs:35 | `OrderByDescending(e => e.Date)` compares with a total preorder |
| Events.OrderedIsSortedSelection | Controllers/EventController.cs:34-35 | the ordered list is a permutation of the selection with dates descending |
| Events.Wrap32 | Controllers/EventController.cs:36 | unchecked `int` arithmetic gives the 32-bit value congruent to the exact one modulo 2^32, and the exact one when it fits |
| Events.PageOffset | Controllers/EventController.cs:36 | the pager's offset (p−1)·10 is exact up to page 214,748,365 |
| Events.IndexPage | Controllers/EventController.cs:21-36 | a page exists iff the page number is at least 1 and the list is empty or the 32-bit offset is not negative; it holds at most ten events |
| Events.PageIsSlice | Controllers/EventController.cs:23-36 | a shown page holds the ordered list's elements from the pager's offset on, up to ten, as many as exist: positions (p−1)·10 to p·10−1 up to page 214,748,365 |
| Events.HugePagesWrap | Controllers/EventController.cs:34-36 | on a non-empty list page 214,748,366 has offset −2,147,483,646 and throws, and page 429,496,731 has offset 4 and shows the fifth to fourteenth events |
| Events.PageIsSelectedAndDescending | Controllers/EventController.cs:25-36 | every event on a page is in the table and matches the search, and the page runs newest first |
| Events.Find | Controllers/EventController.cs:68 | `Find` returns an event of the table with that id, and nothing iff no event has it |
| Events.FindUnique | Controllers/EventController.cs:92 | with unique keys `Find` returns the one event carrying the id |
| Events.GetDetailsJson | Controllers/EventController.cs:101-117 | the details are missing (NotFound) iff no event has the id |
| Events.DetailsDescribeTheEvent | Controllers/EventController.cs:103-112 | the details carry the event's title, description and location, and a ten-character date that reads back as its year, month and day |
| Events.ReplaceById | Controllers/EventController.cs:81 | `Update` replaces exactly the rows with the updated key and keeps the table's length and order |
| Events.ReplaceKeepsKeys | Controllers/EventController.cs:81-82 | with unique keys, an update replaces just the one row with that key, and keys stay unique |
| Events.RemoveIsSplice | Controllers/EventController.cs:95-96 | with unique keys, removing the event at position k splices it out and keeps the rest in order, keys unique |
| Events.EventController.constructor | Controllers/EventController.cs:14-17 | the controller works on the given database |
| Events.EventController.Index | Controllers/EventController.cs:21-42 | the page shown is `IndexPage`; a page below 1, or a negative wrapped offset on a non-empty list, ends in an unhandled exception |
| Events.KeyedForInsert | Controllers/EventController.cs:57 | an inserted event gets a generated non-empty key when posted with `Guid.Empty`, keeps any other key, and differs from the posted event in nothing else |
| Events.EventController.Insert | Controllers/EventController.cs:57-59 | a key already in the table throws and stores nothing; otherwise the row is appended and the action redirects to Index |
| Events.EventController.Create | Controllers/EventController.cs:53-62 | an invalid event leaves the table and shows the form; a valid event is appended under its key, or a generated one for `Guid.Empty`, and redirects to Index; a duplicate key throws and stores nothing |
| Events.EventController.EditForm | Controllers/EventController.cs:66-71 | NotFound for an unknown id, otherwise the event with that id |
| Events.EventController.Edit | Controllers/EventController.cs:75-86 | id mismatch: BadRequest; invalid: the form; key `Guid.Empty`: inserted under a generated key as `Update` tracks it as new; unknown key: throws; otherwise the row is replaced. Nothing changes on BadRequest, the form or a throw |
| Events.EventController.Delete | Controllers/EventController.cs:90-98 | NotFound with no change for an unknown id; otherwise exactly that event is removed |
| Volunteers.OptionFor | Controllers/VolunteersController.cs:31-35 | each option's value is 36 characters (the database's text of the id) and it keeps the event's title and date |
| Volunteers.OptionValueNamesTheEvent | Controllers/VolunteersController.cs:33 | the option value equals the event id's .NET text up to letter case, so the posted value names the event |
| Volunteers.FormOptions | Controllers/VolunteersController.cs:28-36 | one option per upcoming event |
| Volunteers.FormListsUpcomingEventsInOrder | Controllers/VolunteersController.cs:28-36 | the form lists as many options as there are events dated today or later, each for such an event, in ascending date order |
| Volunteers.FormListsEveryUpcomingEvent | Controllers/VolunteersController.cs:28-36 | conversely, every event of the table dated today or later has its option on the form |
| Volunteers.SignUpRecordsThePair | Controllers/VolunteersController.cs:49-62 | after a sign-up the pair is recorded, old rows are untouched, at most one row is added, and no other pair changes status |
| Volunteers.SignUpIsIdempotent | Controllers/VolunteersController.cs:49-62 | signing the same user up for the same event again changes nothing |
| Volunteers.SignUpKeepsPairsUnique | Controllers/VolunteersController.cs:49-62 | sign-ups never create a second row for one (user, event) pair |
| Volunteers.VolunteersController.constructor | Controllers/VolunteersController.cs:16-20 | the controller works on the given database |
| Volunteers.VolunteersController.ShowVolunteerForm | Controllers/VolunteersController.cs:24-41 | the "VolunteerForEvent" view with the upcoming events as options |
| Volunteers.VolunteersController.VolunteerForEvent | Controllers/VolunteersController.cs:45-65 | the table becomes the insert-if-absent of the pair, and both branches redirect to Event/Index |
| Home.NextEventIsEarliestUpcoming | Controllers/HomeController.cs:22-25 | there is no next event iff no event is dated today or later; otherwise it is such an event, dated no later than any other |
| Home.NewsEventsAreTheEarliest | Controllers/HomeController.cs:78-82 | at most four events, fewer only when there are no more, each upcoming and in the table, in ascending date order |
| Home.NewsEventsLeaveNoEarlier | Controllers/HomeController.cs:78-82 | no upcoming event left off precedes a shown one, and shown plus left-off are all the upcoming events |
| Home.NewerFirstIsPreorder | Controllers/HomeController.cs:85 | `OrderByDescending(b => b.CreatedAt)` compares with a total preorder |
| Home.RecentPostsAreTheNewest | Controllers/HomeController.cs:84-87 | at most four posts, fewer only when the table has fewer, each from the table, newest first |
| Home.RecentPostsLeaveNoNewer | Controllers/HomeController.cs:84-87 | no post left off is newer than a shown one, and shown plus left-off are the whole table |
| Home.HomeController.constructor | Controllers/HomeController.cs:14-18 | the controller works on the given database |
| Home.HomeController.Index | Controllers/HomeController.cs:20-29 | the home page shows `NextEvent` and changes nothing |
| Home.HomeController.NewsPage | Controllers/HomeController.cs:76-90 | the news page shows the four next events and four newest posts and changes nothing |
| Dashboard.SumAppend | Areas/Admin/Controllers/DashboardController.cs:29 | `Sum` distributes over concatenation |
| Dashboard.SumSplitsByMonth | Areas/Admin/Controllers/DashboardController.cs:25-29 | a month's donations and the rest together sum to the whole |
| Dashboard.OfMonthAfterRemoving | Areas/Admin/Controllers/DashboardController.cs:25 | dropping another month's donations leaves a month's donations unchanged |
| Dashboard.WhereOfWhere | Areas/Admin/Controllers/DashboardController.cs:24-25 | a stronger filter after a weaker one is the stronger filter alone |
| Dashboard.GroupsCoverTheMonths | Areas/Admin/Controllers/DashboardController.cs:25 | `GroupBy` makes a group for a month iff some donation falls in it |
| Dashboard.GroupsHaveDistinctMonths | Areas/Admin/Controllers/DashboardController.cs:25 | no month has two groups |
| Dashboard.GroupsSumTheirMonths | Areas/Admin/Controllers/DashboardController.cs:25-30 | each group's total is the sum of its month's donations |
| Dashboard.GroupsAddUp | Areas/Admin/Controllers/DashboardController.cs:25-30 | the group totals add up to the sum of all donations |
| Dashboard.MonthsLength | Areas/Admin/Controllers/DashboardController.cs:25-30 | the months of the entries correspond one to one with the entries |
| Dashboard.MonthAt | Areas/Admin/Controllers/DashboardController.cs:25-30 | each entry's month is among the listed months |
| Dashboard.MonthOrderIsPreorder | Areas/Admin/Controllers/DashboardController.cs:32 | ordering by month number is a total preorder |
| Dashboard.TotalsOfInsert | Areas/Admin/Controllers/DashboardController.cs:32 | an insertion step adds the inserted entry's total |
| Dashboard.TotalsOfSort | Areas/Admin/Controllers/DashboardController.cs:32 | ordering the entries does not change their grand total |
| Dashboard.AscendingMonthsAreFew | Areas/Admin/Controllers/DashboardController.cs:32 | strictly ascending months from `low` to 12 number at most 13 − low |
| Dashboard.MonthsOfPermutation | Areas/Admin/Controllers/DashboardController.cs:32 | two arrangements of the same entries list the same months |
| Dashboard.MonthlyTotalsCoverTheMonths | Areas/Admin/Controllers/DashboardController.cs:21-32 | the dashboard has an entry for a month iff some donation of the year falls in it |
| Dashboard.MonthlyTotalsAreMonthSums | Areas/Admin/Controllers/DashboardController.cs:24-29 | each entry's total is the sum of that month's donations in the year |
| Dashboard.SortedMonthsAscend | Areas/Admin/Controllers/DashboardController.cs:32 | ordering entries with distinct months 1..12 gives strictly ascending months, at most twelve |
| Dashboard.MonthlyTotalsAscend | Areas/Admin/Controllers/DashboardController.cs:25-32 | the entries' months ascend strictly, so there are at most twelve entries |
| Dashboard.MonthlyTotalsAddUp | Areas/Admin/Controllers/DashboardController.cs:23-32 | the entry totals add up to the sum of all donations of the year |
| Dashboard.DashboardController.constructor | Areas/Admin/Controllers/DashboardController.cs:15-18 | the controller works on the given database |
| Dashboard.DashboardController.Index | Areas/Admin/Controllers/DashboardController.cs:19-37 | the dashboard shows the monthly totals of the current UTC year and changes nothing |
| Blog.Separator | Controllers/BlogController.cs:41 | the platform's directory separator is recognised as a separator |
| Blog.Combine | Controllers/BlogController.cs:41-42 | `Path.Combine` returns the first path when the second is empty, and the second alone when it is rooted or the first is empty |
| Blog.ExtensionScanShape | Controllers/BlogController.cs:41 | the backward scan finds nothing, or a final '.' followed by at least one character with no '.' or separator |
| Blog.ExtensionShape | Controllers/BlogController.cs:41 | `Path.GetExtension` is empty, or a final ".xyz" of the file name |
| Blog.PublicPath | Controllers/BlogController.cs:50 | the public path starts with '/' and contains no '\' |
| Blog.RelativePathJoins | Controllers/BlogController.cs:41 | the identifier never makes the name rooted, so the relative path is folder + separator + id + extension |
| Blog.PublicPathOfName | Controllers/BlogController.cs:41-50 | the public path of a name in the upload folder is "/" + folder + "/" + name, with '\' replaced only in the extension |
| Blog.FolderHasNoBackslash | Controllers/BlogController.cs:41 | the upload folder contains no '\' |
| Blog.PublicPathOfUpload | Controllers/BlogController.cs:41-50 | an upload's public path is "/uploads/blogs/" + identifier + extension with '\' turned into '/', on either platform |
| Blog.PhotoPath | Controllers/BlogController.cs:51-67 | the photo path is the default avatar iff no photo was sent |
| Blog.PublishedPost | Controllers/BlogController.cs:50-67 | the stored post differs from the submitted one only in its two paths; the PDF path starts with '/' and has no '\'; the photo path is the avatar iff no photo was sent |
| Blog.Saved | Controllers/BlogController.cs:42-60 | the PDF's full path holds its bytes (unless the photo is written to the same path after it), the photo's full path holds the photo's bytes, and every other file is unchanged, present or absent |
| Blog.BlogController.constructor | Controllers/BlogController.cs:12-16 | the controller works on the given database, file store and web root |
| Blog.BlogController.Create | Controllers/BlogController.cs:29-71 | without a valid form and a PDF: the form with its error, and no post or file; otherwise the files are written, exactly one post is appended, and the result redirects to Event/Index |

## Left out

- Payment gateway: the gateway client library is not modelled. What `CreateAsync`, `GetAsync` and the line-item listing return, or that they throw a gateway or other exception, is an input. The line-item listing's `Limit = 1` is modelled by reading only the first item.
- Identity: sign-in state and the user id are parameters. Role checks (`[Authorize(Roles = "Admin")]` on the event and dashboard actions, `[Authorize]` on sign-up and event details) are framework filters and are not modelled.
- Startup: `Program.cs`, dependency injection and the environment are not modelled. `LoadConfig` models only the constructor's check of the two URLs.
- Logging, `ViewBag.Banks`, `ViewData["SearchTerm"]` and the view models' rendering are not modelled.
- The clock: `DateTime.UtcNow`, `DateTime.Now` and `DateTime.Today` are parameters. Month lengths and time zones are not modelled; a `DateTime` is its calendar fields.
- Fresh identifiers: `Guid.NewGuid()` values are parameters. That a new id is non-empty and unused is not modelled.
- EventModel.NewEvent: does not state that the id is non-empty, because `Guid.NewGuid()` is a parameter here.
- Database: EF Core is not modelled beyond its key generation; each table is a sequence of committed rows.
  - A `Guid` key left at `Guid.Empty` gets a generated value on `Add`, and `Update` inserts such an event as new (`KeyedForInsert`). The generated value is a parameter, taken to be non-empty; that it is unused is not assumed, and a clash throws.
  - Foreign keys are not enforced.
  - Save failures are modelled only for donations (`saveSucceeds`). Blog and volunteer saves are taken to commit.
  - The database's case-insensitive collation for the event search is not modelled; matching is ordinal.
- Text: `OrdinalIgnoreCase` folds only ASCII letters here, not the full Unicode case mapping. Strings are sequences of characters, not UTF-16 code units.
- Decimals: `decimal` is an exact real. Its 28-digit precision and the overflow of `Convert.ToInt32` above int.MaxValue inside the range check are not modelled. Overflow of `Convert.ToInt64` cannot occur for valid forms (`ValidAmountCents`).
- Dashboard: month names (`GetAbbreviatedMonthName` and `ParseExact` with "MMM") are presentation. Entries carry the month number, and ordering by the parsed name is ordering by that number.
- Culture: the model assumes a current culture whose abbreviated month names the invariant culture parses back (English) and whose calendar is the Gregorian one. Under another culture (French, German, or "Sept" for September) `ParseExact` throws and the dashboard fails with an unhandled exception, which `Dashboard.DashboardController.Index` does not model. Under a non-Gregorian calendar (Thai Buddhist) the "yyyy-MM-dd" details date carries that calendar's year, which `Calendar.FormatDate` does not model.
- Dashboard.DashboardController.Index: always shows the view; it does not model the `FormatException` a non-English current culture causes (see Culture).
- Calendar.FormatDate: formats in the Gregorian calendar only (see Culture).
- Events.EventController.Create: `ModelState.IsValid` for an event is modelled as the data-annotation validator alone (`EventModel.ValidationErrors`). If nullable reference types are on in the project (the project file is not part of this model), MVC also treats the non-nullable `Description` and `Location` as required. A blank description or location would then show the form again where the model stores the event.
- Events.EventController.Edit: the same holds for the edit form's `ModelState.IsValid`.
- Order of ties: `OrderBy` and `OrderByDescending` are modelled as a stable sort, but the database's `ORDER BY` leaves rows with equal dates in an unspecified order. The lemmas about what is shown (`PageIsSelectedAndDescending`, `NextEventIsEarliestUpcoming`, `NewsEventsAreTheEarliest`, `NewsEventsLeaveNoEarlier`, `RecentPostsAreTheNewest`, `RecentPostsLeaveNoNewer`, `FormListsUpcomingEventsInOrder`, `FormListsEveryUpcomingEvent`) hold for any order of ties. The members below fix the stable order.
- Events.IndexPage: among events with the same date, which comes first, and so which page each is on, is the stable order, not one the database promises.
- Events.PageIsSlice: the slice is of the stable order (see Order of ties).
- Events.EventController.Index: the page shown is of the stable order (see Order of ties).
- Home.HomeController.Index: of two upcoming events on the same earliest date, the one shown is the first in table order; the database may return either.
- Home.HomeController.NewsPage: which of several events or posts tied at the cut-off of four is shown is the stable choice (see Order of ties).
- Volunteers.VolunteersController.ShowVolunteerForm: options for events on the same date appear in table order (see Order of ties).
- Pager: the X.PagedList library is not part of this model. Its behaviour is modelled as it counts the list first and skips the unchecked 32-bit offset only when the list is not empty.
- Volunteer form: the `SelectListItem` text (title plus "MMM d, yyyy") is presentation. An option keeps the title and date it is made from.
- Blog:
  - `ModelState.IsValid` for a post is a parameter. The binder's `[Bind]` list, `[Required]` on the unbound `PdfFilePath`, `[EmailAddress]` and `[Url]` make it framework-dependent.
  - Directory creation, streams and partial writes are not modelled: a written file is its bytes in a map.
  - `Path.Combine` with the web root is modelled with the same rules as for the relative path, without invalid-character checks.
- Paging: `X.PagedList`'s page metadata (page count, has-next) is not modelled, only the items of a page. Its exception for a page below 1, and the database's refusal of a negative offset, are the `Unhandled` result.
- The static pages, the GET forms that only return a view, `ThankYou` and `Error` are not modelled, and neither is the e-mail sender.
- Some test files call members that the controllers do not have (a `Create(decimal)` action, `Notes` and `StripeSessionId` on `Donation`, and several blog actions). They also expect a view where the volunteer action redirects. The model follows the controllers.
