# Expense management backend, modelled in Dafny

A model of the server-side rules of an expense-management application (a
Spring backend). Employees submit expenses. Small ones are approved on the
spot. The rest are routed by amount to a MANAGER, FINANCE or ADMIN tier and
advance one tier per approval. Around that sit a dashboard of aggregates,
a per-user notification table, user-role administration with an audit log,
a budget setting, receipt checks for the image store, and the token and
sign-in helpers of the security layer.

Each Java class of the core is one Dafny module:

- Stateful classes are Dafny classes whose methods state the whole new state:
  - the expense repository, a `map` from id to row;
  - the notification table;
  - the user table;
  - the audit log;
  - the budget cell.
- Stream pipelines and guard chains are functions with lemmas.
- `Wrappers`, `Http`, `Text`, `Split`, `Sequences` and `Multipart` hold the
  shared vocabulary: Option and Result, HTTP replies, Java string predicates,
  Java `String.split`, stream operations, and uploaded files.

Conventions:

- Amounts are whole cents (`int`); the thresholds 100, 3000, 20000 and
  50000.00 appear as 10000, 300000, 2000000 and 5000000.
- Dates are already-parsed (year, month, day) triples.
- Month keys are (year, month) pairs instead of "yyyy-MM" strings.
- A reply is `Ok(body)` or `Fail(status, message)`.
- An exception that reaches the caller is a `Failure` of a `Result`.
- The current user is passed in: as an id (notifications), as the principal's
  email (employee views), or as the principal's name (the audit actor).
- Foreign calls are function parameters: token validation, reading the user
  name from a token, and loading a user.
- The clock's current year is a parameter.

Where the code and the written design disagree, the model follows the code:

- `approve` never reads the approval status, so approved or rejected
  expenses are not terminal.
- There is no reject operation; its endpoint is commented out.
- No approver id is recorded.
- No notification is emitted on a transition.
- `createExpense` never records the submitting user as owner. Expenses
  created through it are therefore never listed by the employee views,
  which select by owner.

## Model

| member | source | states |
|---|---|---|
| Expenses.NewExpense | enterprise-expense-management/src/main/java/com/expense/management/model/Expense.java:44-73 | a fresh expense is PENDING at tier MANAGER, with no priority, id, attachment, receipt URL or owner |
| Expenses.DayNumberOrdersDates | enterprise-expense-management/src/main/java/com/expense/management/services/DashboardService.java:99 | the sort key orders dates exactly as `LocalDate.compareTo` does, and two dates compare equal only when they are the same date |
| Expenses.StatusNameInjective | enterprise-expense-management/src/main/java/com/expense/management/controller/EmployeeDashboardController.java:63 | comparing status names is comparing statuses: the names of two statuses are equal exactly when the statuses are |
| ExpenseService.TierFor | enterprise-expense-management/src/main/java/com/expense/management/services/ExpenseService.java:27-35 | MANAGER exactly below 3000, FINANCE exactly from 3000 up to below 20000, ADMIN exactly from 20000: the bands partition all amounts |
| ExpenseService.TierMonotonic | enterprise-expense-management/src/main/java/com/expense/management/services/ExpenseService.java:27-35 | a larger amount is never routed to a lower tier |
| ExpenseService.Route | enterprise-expense-management/src/main/java/com/expense/management/services/ExpenseService.java:26-36 | `add` sets the tier from the amount and the matching Low/Medium/High label, and leaves every other field (the approval status included) as the caller set it |
| ExpenseService.ApproveStep | enterprise-expense-management/src/main/java/com/expense/management/services/ExpenseService.java:42-57 | one approve reports true exactly when a tier is set; it moves MANAGER to FINANCE and FINANCE to ADMIN, sets APPROVED only at ADMIN, and changes nothing but status and tier |
| ExpenseService.ApprovedAfter | enterprise-expense-management/src/main/java/com/expense/management/services/ExpenseService.java:42-55 | from PENDING, the tier never goes down, and the expense is APPROVED after n approvals exactly when n reaches 3, 2 or 1 for MANAGER, FINANCE or ADMIN |
| ExpenseService.ApprovedForever | enterprise-expense-management/src/main/java/com/expense/management/services/ExpenseService.java:52-55 | an approved ADMIN-tier expense is a fixed point: more approvals change nothing and still return true |
| ExpenseService.RejectedCanBeApproved | enterprise-expense-management/src/main/java/com/expense/management/services/ExpenseService.java:52-55 | there is no terminal-state guard: a REJECTED expense at ADMIN becomes APPROVED and the call returns true |
| ExpenseService.InIdOrder | enterprise-expense-management/src/main/java/com/expense/management/services/ExpenseService.java:21-24 | `findAll` lists only stored rows, and every stored row with an id below the next id; when every row carries its key as id, the ids strictly increase along the list, so each row is listed once |
| ExpenseService.Service.All | enterprise-expense-management/src/main/java/com/expense/management/services/ExpenseService.java:21-24 | every listed expense is a stored row, every stored row is listed, and the ids strictly increase along the list, so each row is listed once |
| ExpenseService.Service.AllByUser | enterprise-expense-management/src/main/java/com/expense/management/services/ExpenseService.java:60-62 | an expense is listed exactly when it is stored and owned by the user |
| ExpenseService.Service.Save | enterprise-expense-management/src/main/java/com/expense/management/services/ExpenseService.java:37 | a row with a stored id replaces it; any other row is stored under the next id, which then advances; ids stay equal to their keys |
| ExpenseService.Service.Add | enterprise-expense-management/src/main/java/com/expense/management/services/ExpenseService.java:26-38 | the routed expense is saved as `Save` states, and the repository invariant is kept |
| ExpenseService.Service.Approve | enterprise-expense-management/src/main/java/com/expense/management/services/ExpenseService.java:40-58 | an unknown id fails with "expense not found!" and saves nothing; otherwise the stored row becomes the approve step of it and its flag is returned |
| ExpenseController.Draft | enterprise-expense-management/src/main/java/com/expense/management/controller/ExpenseController.java:57-79 | APPROVED exactly at or below 100, PENDING exactly above; the attachment is set exactly when a non-empty receipt is present; None exactly when reading that receipt fails; no owner, id or priority yet; amount, category, description, date and comments as given, at tier MANAGER |
| ExpenseController.AutoApprovedIsRoutedLow | enterprise-expense-management/src/main/java/com/expense/management/controller/ExpenseController.java:62-81 | an auto-approved expense still comes out of `add` at tier MANAGER with priority Low and status APPROVED |
| ExpenseController.PendingIsRoutedByAmount | enterprise-expense-management/src/main/java/com/expense/management/controller/ExpenseController.java:62-81 | an expense above 100 stays PENDING at the tier its amount selects, and needs 3, 2 or 1 approvals as that tier is MANAGER, FINANCE or ADMIN |
| ExpenseController.CreateExpense | enterprise-expense-management/src/main/java/com/expense/management/controller/ExpenseController.java:48-87 | a receipt read failure answers 400 "File processing error" and stores nothing; otherwise the routed draft is stored under the next id, which then advances by one, and returned with "Expense saved successfully" |
| ExpenseController.ApproveExpense | enterprise-expense-management/src/main/java/com/expense/management/controller/ExpenseController.java:222-232 | "updated!" when the expense has a tier and "failed!" when it has none, both 200, with the row updated as `approve` states; an unknown id propagates the not-found failure and changes nothing; the next id never moves |
| DashboardService.TotalAppend | enterprise-expense-management/src/main/java/com/expense/management/services/DashboardService.java:58-60 | the total of two lists joined is the sum of their totals |
| DashboardService.StatusSumsMakeTotal | enterprise-expense-management/src/main/java/com/expense/management/services/DashboardService.java:82-87 | the PENDING, APPROVED and REJECTED sums add up to the total |
| DashboardService.GroupSum | enterprise-expense-management/src/main/java/com/expense/management/services/DashboardService.java:89-94 | the group-by map has exactly the keys that occur in the list |
| DashboardService.GroupSumAt | enterprise-expense-management/src/main/java/com/expense/management/services/DashboardService.java:89-94 | each group's value is the total of exactly the expenses with that key |
| DashboardService.ExpensesByCategory | enterprise-expense-management/src/main/java/com/expense/management/services/DashboardService.java:89-94 | the keys are exactly the categories present, and each value is that category's total |
| DashboardService.RecentExpenses | enterprise-expense-management/src/main/java/com/expense/management/services/DashboardService.java:96-113 | min(5, n) summaries of the stably date-sorted list, in order, newest date first |
| DashboardService.RecentComesFromInput | enterprise-expense-management/src/main/java/com/expense/management/services/DashboardService.java:96-100 | every recent entry summarises an expense of the input |
| DashboardService.CalculateMonthlyExpenses | enterprise-expense-management/src/main/java/com/expense/management/services/DashboardService.java:115-129 | all 12 months of the padding year (first expense's year, else the current year) are keys; existing month totals are kept; added months are 0; no other keys |
| DashboardService.CalculateStatusCounts | enterprise-expense-management/src/main/java/com/expense/management/services/DashboardService.java:131-140 | exactly the three status names are keys, each holding the number of expenses with that status |
| DashboardService.StatusCountsCoverAll | enterprise-expense-management/src/main/java/com/expense/management/services/DashboardService.java:131-140 | the three counts add up to the number of expenses |
| DashboardService.GetDashboardDataOf | enterprise-expense-management/src/main/java/com/expense/management/services/DashboardService.java:54-80 | every DTO field is the aggregate above of the given list, and the three status sums add up to the total |
| DashboardService.GetDashboardData | enterprise-expense-management/src/main/java/com/expense/management/services/DashboardService.java:25-52 | the same DTO over every stored expense |
| Sequences.Filter | enterprise-expense-management/src/main/java/com/expense/management/services/DashboardService.java:83-86 | a filtered list holds exactly the elements that pass, and is no longer than the input |
| Sequences.FilterAppend | enterprise-expense-management/src/main/java/com/expense/management/controller/EmployeeExpenseController.java:34-36 | filtering keeps relative order: it distributes over concatenation |
| Sequences.FilterFilter | enterprise-expense-management/src/main/java/com/expense/management/controller/EmployeeDashboardController.java:62-64 | filtering twice is filtering once by both conditions, in the same order |
| Sequences.Take | enterprise-expense-management/src/main/java/com/expense/management/services/DashboardService.java:100 | `limit(n)` keeps a prefix of length min(n, size) |
| Sequences.SortDesc | enterprise-expense-management/src/main/java/com/expense/management/services/DashboardService.java:99 | the sorted list is a permutation of the input, ordered by descending key |
| Sequences.SortDescStable | enterprise-expense-management/src/main/java/com/expense/management/services/DashboardService.java:99 | the sort is stable: the elements of each key keep their input order |
| Sequences.FirstWhere | enterprise-expense-management/src/main/java/com/expense/management/controller/UserController.java:115 | a `findBy...` lookup returns the first row that matches, and reports absence only when no row matches |
| Sequences.FirstWhereAppend | enterprise-expense-management/src/main/java/com/expense/management/controller/UserController.java:121-127 | a row saved with a key no stored row has is afterwards found at the end of the table |
| NotificationController.UserRowsNewestFirst | enterprise-expense-management/src/main/java/com/expense/management/controller/NotificationController.java:41 | exactly the user's notifications, all of them, newest first |
| NotificationController.ReadAllFor | enterprise-expense-management/src/main/java/com/expense/management/controller/NotificationController.java:109-113 | each of the user's rows becomes read; every other row is unchanged; the table keeps its size |
| NotificationController.NoUnreadAfterReadAll | enterprise-expense-management/src/main/java/com/expense/management/controller/NotificationController.java:109-113 | after marking all read the user's unread count is 0 |
| NotificationController.ReadAllForOthersKeepsCount | enterprise-expense-management/src/main/java/com/expense/management/controller/NotificationController.java:109-113 | marking another user's rows read leaves this user's unread count unchanged |
| NotificationController.MarkOneLowersCount | enterprise-expense-management/src/main/java/com/expense/management/controller/NotificationController.java:86-87 | marking one of the user's unread rows read lowers the unread count by one; marking a read one changes nothing |
| NotificationController.RemoveAtKeepsOthers | enterprise-expense-management/src/main/java/com/expense/management/controller/NotificationController.java:145 | deleting a row removes exactly the rows with its id, keeps all others, and ids stay unique |
| NotificationController.Controller.GetUserNotifications | enterprise-expense-management/src/main/java/com/expense/management/controller/NotificationController.java:31-61 | 401 "User not found" without a user; otherwise the id/title/message/isRead/createdAt view of the user's rows, newest first |
| NotificationController.Controller.MarkAsRead | enterprise-expense-management/src/main/java/com/expense/management/controller/NotificationController.java:66-94 | 401, then 404 for a missing id, then 403 for another user's row, each changing nothing; otherwise only that row's read flag is set |
| NotificationController.Controller.MarkAllAsRead | enterprise-expense-management/src/main/java/com/expense/management/controller/NotificationController.java:99-120 | 401 changing nothing; otherwise the table becomes `ReadAllFor` of the old one |
| NotificationController.Controller.DeleteNotification | enterprise-expense-management/src/main/java/com/expense/management/controller/NotificationController.java:125-152 | 401/404/403 changing nothing; otherwise exactly the named row is removed and every other row kept in order |
| NotificationController.Controller.GetUnreadCount | enterprise-expense-management/src/main/java/com/expense/management/controller/NotificationController.java:157-175 | 401 without a user; otherwise the number of the user's unread rows |
| Users.UserRepository.Insert | enterprise-expense-management/src/main/java/com/expense/management/controller/UserController.java:121-127 | a new user is appended under the next id, which advances by one, and is then found by its email; emails and ids stay unique |
| Users.UserRepository.SetRole | enterprise-expense-management/src/main/java/com/expense/management/controller/UserController.java:161-162 | only the role of the user at that position changes |
| AuditService.Service.LogEvent | enterprise-expense-management/src/main/java/com/expense/management/services/AuditService.java:19-22 | exactly one entry with the given user, action, details and status is appended, earlier entries untouched, and it is returned |
| AuditService.Service.GetAllLogs | enterprise-expense-management/src/main/java/com/expense/management/services/AuditService.java:15-17 | every logged entry, in order |
| UserController.RoleName | enterprise-expense-management/src/main/java/com/expense/management/controller/UserController.java:143 | "ROLE_" followed by the requested name upper-cased character by character |
| UserController.RoleNameIgnoresCase | enterprise-expense-management/src/main/java/com/expense/management/controller/UserController.java:143 | the role lookup ignores letter case: an upper-cased request names the same role |
| UserController.RoleChangeDetails | enterprise-expense-management/src/main/java/com/expense/management/controller/UserController.java:154-157 | the details start with "Changed role of user <email> from " then name the old role, and end with the new role |
| UserController.UpdateUserRole | enterprise-expense-management/src/main/java/com/expense/management/controller/UserController.java:132-177 | no "role" key: 400 "Role is required"; a null role: 400 "Error updating user role: " and the exception text, before any change; unknown role, then unknown user: 400 with the error text, and no audit entry or user change; otherwise one UPDATE_USER_ROLE/SUCCESS entry by the principal naming email, old and new role is appended, only that user's role changes, and the reply reports it |
| UserController.GetAllUsers | enterprise-expense-management/src/main/java/com/expense/management/controller/UserController.java:179-197 | one id/email/fullName/role view per stored user, in repository order |
| UserController.Signup | enterprise-expense-management/src/main/java/com/expense/management/controller/UserController.java:113-130 | a registered email gets 400 "Email already registered." and nothing is saved; otherwise the user is appended; either way the email is registered afterwards |
| BudgetController.Register.constructor | enterprise-expense-management/src/main/java/com/expense/management/controller/BudgetController.java:21 | the budget starts at 50000.00 |
| BudgetController.Register.GetMonthlyBudget | enterprise-expense-management/src/main/java/com/expense/management/controller/BudgetController.java:23-26 | the current value under the single key "budget" |
| BudgetController.Register.SetMonthlyBudget | enterprise-expense-management/src/main/java/com/expense/management/controller/BudgetController.java:28-37 | a provided value of any sign is stored and echoed; without one, 400 "Budget value not provided." and the value is kept |
| BudgetController.Register.SetThenGet | enterprise-expense-management/src/main/java/com/expense/management/controller/BudgetController.java:23-37 | a read after an update returns the value sent, or the old value when none was sent |
| CloudinaryService.ReceiptProblem | enterprise-expense-management/src/main/java/com/expense/management/services/CloudinaryService.java:26-39 | a file passes exactly when present, non-empty, an image or PDF, and at most 10 MiB; otherwise the message is the first failed check in that order |
| CloudinaryService.UploadReceipt | enterprise-expense-management/src/main/java/com/expense/management/services/CloudinaryService.java:24-50 | an invalid file is refused with the check's message; the bytes go to the store only when every check passes |
| CloudinaryService.DeleteFile | enterprise-expense-management/src/main/java/com/expense/management/services/CloudinaryService.java:76-81 | refused exactly when the id is null or blank after trimming; otherwise the id is passed on unchanged |
| CloudinaryService.ExtractPublicIdFromUrl | enterprise-expense-management/src/main/java/com/expense/management/services/CloudinaryService.java:88-109 | null for a null or blank URL and for one without "/upload/"; an id never contains '.' |
| CloudinaryService.PiecesAroundMarker | enterprise-expense-management/src/main/java/com/expense/management/services/CloudinaryService.java:94-97 | splitting at the first "/upload/" gives the text before and after it, with Java's removal of trailing empty pieces |
| CloudinaryService.NothingAfterMarker | enterprise-expense-management/src/main/java/com/expense/management/services/CloudinaryService.java:94-97 | a URL whose first "/upload/" stands at its end yields null (a URL with an earlier "/upload/" is split there instead) |
| CloudinaryService.DropsVersion | enterprise-expense-management/src/main/java/com/expense/management/services/CloudinaryService.java:101-105 | after the marker, everything up to and including the first '/' is dropped |
| CloudinaryService.VersionedUrlRoundTrip | enterprise-expense-management/src/main/java/com/expense/management/services/CloudinaryService.java:99-105 | `base/upload/version/path.ext` yields `path` |
| CloudinaryService.PlainUrlRoundTrip | enterprise-expense-management/src/main/java/com/expense/management/services/CloudinaryService.java:108 | `base/upload/name.ext` with no '/' after the marker yields `name` |
| CloudinaryService.DotsOnlyFails | enterprise-expense-management/src/main/java/com/expense/management/services/CloudinaryService.java:108 | a remainder made only of dots makes the final index fail |
| Split.SplitAllJoin | enterprise-expense-management/src/main/java/com/expense/management/services/CloudinaryService.java:94 | joining the split pieces with the separator gives back the input |
| Split.SplitAllPiecesFree | enterprise-expense-management/src/main/java/com/expense/management/services/CloudinaryService.java:94 | no piece contains the separator |
| Split.DropTrailingEmpty | enterprise-expense-management/src/main/java/com/expense/management/services/CloudinaryService.java:94 | a prefix of the pieces that does not end in an empty piece, only empty pieces dropped |
| Split.SplitOnce | enterprise-expense-management/src/main/java/com/expense/management/services/CloudinaryService.java:102 | `split("/", 2)` is the input unchanged without a match, otherwise two pieces around the first match, the first free of it |
| Split.BeforeFirstDot | enterprise-expense-management/src/main/java/com/expense/management/services/CloudinaryService.java:104 | `split("\\.")[0]` fails exactly for a non-empty all-dot string; otherwise it is the dot-free prefix up to the first dot |
| Split.DotsSplitIntoEmpties | enterprise-expense-management/src/main/java/com/expense/management/services/CloudinaryService.java:108 | an all-dot string splits into empty pieces only |
| Split.EmptiesComeFromDots | enterprise-expense-management/src/main/java/com/expense/management/services/CloudinaryService.java:108 | only an all-dot string splits into empty pieces only |
| JwtAuthenticationFilter.GetJwtFromRequest | enterprise-expense-management/src/main/java/com/expense/management/security/JwtAuthenticationFilter.java:68-82 | a Bearer header wins and yields the text after "Bearer "; else a token parameter with text; else null |
| JwtAuthenticationFilter.BearerHeaderWins | enterprise-expense-management/src/main/java/com/expense/management/security/JwtAuthenticationFilter.java:70-73 | a header "Bearer t" yields t whatever the parameter holds |
| JwtAuthenticationFilter.TokenComesFromRequest | enterprise-expense-management/src/main/java/com/expense/management/security/JwtAuthenticationFilter.java:68-82 | a token found is the header minus "Bearer " or the parameter with text |
| JwtAuthenticationFilter.SkippedPathsArePrefixClosed | enterprise-expense-management/src/main/java/com/expense/management/security/JwtAuthenticationFilter.java:85-89 | every path below a skipped path is skipped |
| JwtAuthenticationFilter.DoFilterInternal | enterprise-expense-management/src/main/java/com/expense/management/security/JwtAuthenticationFilter.java:33-66 | the chain always continues; a user is authenticated exactly when a token with text validates and its user exists |
| JwtAuthenticationFilter.FilterRequest | enterprise-expense-management/src/main/java/com/expense/management/security/JwtAuthenticationFilter.java:85-89 | skipped paths continue unauthenticated; any other path authenticates exactly when the token has text, validates and names an existing user; the chain always continues |
| OAuth2LoginSuccessHandler.EmailOf | enterprise-expense-management/src/main/java/com/expense/management/security/OAuth2LoginSuccessHandler.java:96-108 | the "email" attribute, else "login" + "@github.com"; the error exactly when both are missing |
| OAuth2LoginSuccessHandler.NameOf | enterprise-expense-management/src/main/java/com/expense/management/security/OAuth2LoginSuccessHandler.java:110-122 | the first of "name", "login", "email" present, else "Unknown User"; always an attribute value or that default |
| OAuth2LoginSuccessHandler.NameComesFromProvider | enterprise-expense-management/src/main/java/com/expense/management/security/OAuth2LoginSuccessHandler.java:96-122 | whenever an email is found, the name is one of the provider's values |
| OAuth2LoginSuccessHandler.OnAuthenticationSuccess | enterprise-expense-management/src/main/java/com/expense/management/security/OAuth2LoginSuccessHandler.java:51-59 | an existing user with the email is reused and nothing is created; otherwise a new user is created; afterwards the returned user is the one stored under that email |
| OAuth2LoginSuccessHandler.CreateNewUser | enterprise-expense-management/src/main/java/com/expense/management/security/OAuth2LoginSuccessHandler.java:124-136 | without ROLE_EMPLOYEE: "Default role not found" and nothing saved; otherwise a user with the email, the name and ROLE_EMPLOYEE is appended |
| EmployeeExpenseController.GetEmployeeExpenses | enterprise-expense-management/src/main/java/com/expense/management/controller/EmployeeExpenseController.java:27-38 | 400 for an unknown user; otherwise exactly the stored expenses owned by the user, in repository order, never one without owner |
| EmployeeDashboardController.GetEmployeeDashboard | enterprise-expense-management/src/main/java/com/expense/management/controller/EmployeeDashboardController.java:38-51 | 400 for an unknown user; otherwise the dashboard over all of the user's expenses, of every status |
| EmployeeDashboardController.GetApprovedExpenses | enterprise-expense-management/src/main/java/com/expense/management/controller/EmployeeDashboardController.java:53-67 | 400 for an unknown user; otherwise exactly the user's APPROVED expenses, in repository order |

## Left out

- Amounts: IEEE `double` rounding in sums and comparisons is not modelled; amounts are exact cents.
- Dates: `LocalDate.parse` and date formatting are not modelled; summaries keep the date triple instead of "yyyy-MM-dd".
- Month keys: the padding keys come from `String.format("%d-%02d")` and the grouped keys from the "yyyy-MM" pattern. These differ for years below 1000 ("999-01" against "0999-01"), for years above 9999 ("10000-01" against "+10000-01") and for years at or below 0, where "yyyy" prints the year of the era ("0-01" against "0001-01" for year 0); the model uses (year, month) pairs and does not show that mismatch.
- A null approval status, category or date on a stored expense (a null dereference in the streams) is not modelled; those fields are always set.
- Notifications with no owner (a null dereference at the ownership check, answered 500) are not modelled; every notification has an owner.
- UserController.UpdateUserRole: a stored user whose role is null (a null dereference while the audit text is built, before any change) and a stored user whose full name is null (a null dereference in `Map.of` after the audit entry and the role change are committed, answered 400) are not modelled: every stored user has a role and a full name here.
- ExpenseService.InIdOrder: `findAll` is modelled as listing the rows in ascending id order, which JPA does not promise; the year `calculateMonthlyExpenses` pads (taken from the first listed expense) and the order of expenses with equal dates among the five recent ones depend on that order.
- The 500 replies of the notification and user-list handlers' catch blocks are not modelled: in the model no step throws.
- JSON bodies are not modelled: replies carry the message text, not the single-key maps ("error", "message", "budget") the handlers build.
- BudgetController.Register.SetMonthlyBudget: the echoed value is kept as a number, not rendered with `Double.toString`.
- UserController.RoleName: `toUpperCase` is modelled on ASCII letters only; other characters are left as they are.
- Role entities are their names; passwords, password encoding, timestamps and profile images are not part of this model.
- UserController.Signup: the role sent by the client is stored as given; whether such a role exists is up to the database and is not modelled.
- The calls to the image store (upload parameters, upload, destroy) and the controller around them are foreign and not part of this model; `UploadReceipt` ends with the bytes that would be sent.
- JwtAuthenticationFilter.DoFilterInternal: an exception thrown by token validation or user loading is modelled as validation failing or the user not existing; logging is not modelled.
- The security-context writes, JWT issuing, the redirect URL and its URL encoding in the sign-in handler are not part of this model.
- OAuth2LoginSuccessHandler.EmailOf: attribute values are strings; other attribute types are not modelled.
- Concurrent approvals are not modelled: the code has no locking.
- The HQL endpoints of the expense controller, the authentication controller and the login paths are not part of this model.
- NotificationController.Controller.MarkAllAsRead: the source walks the user's rows newest first; the model walks the table in storage order. Only the read flags change, so the order does not affect the result.
