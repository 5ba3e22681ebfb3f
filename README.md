# Noodle ordering system: order/payment saga and user accounts

This project models the core of the noodle ordering system: three services that talk over events and gRPC.

- **Order service.**
  - `CreateOrderAsync` stores a Pending order and prices each line at BasePrice × Quantity from the noodle catalogue. It saves the items and the total, then publishes PaymentRequested followed by OrderCreated.
  - `UpdateOrderStatusAsync` overwrites an order's status and publishes OrderStatusChanged. When the new status is "Confirmed", ignoring case, it also publishes PaymentRequested.
  - Four event consumers move an order's `Status`:
    - OrderCreated sets Processing.
    - PaymentRequested sets AwaitingPayment, or PaymentProcessingFailed after a fraud check or forward failure. It also computes a 15-minute timeout.
    - PaymentCompleted sets InPreparation, or PaymentProcessingError on the failure path.
    - PaymentFailed sets PaymentFailedRetryable or Cancelled.

    Each consumer overwrites the status without comparing it with the old one. Only `HandlePaymentTimeout` looks at the current status.
  - `ValidateOrder` is a read-only gRPC lookup.
- **Payment service.**
  - The PaymentRequested consumer checks that the order exists, with up to three gRPC attempts and a 200·k ms back-off. It gates on the order total (|total − amount| ≤ 0.01), records a "Processing" payment and settles it. It publishes PaymentCompleted only on success and never publishes a failure event.
  - The gRPC service requests, reports, cancels (Pending only) and refunds (Completed only, refund ≤ paid) payments over the Payments table.
- **User service.**
  - The `UserRepository` has soft delete, active-only existence checks, an active-user listing sorted by FullName, and password hashing.
  - The `UsersService` covers sign-in, registration, password reset, profile update and deletion.
  - The second user service adds Google sign-in: audience and expiry checks on the token, then linking to an existing account or creating a new one.

Tables are fields of classes (`OrderStore.OrderDb`, `PaymentDomain.PaymentDb`, `UsersRepository.UserRepository`) that the handlers change through methods with `modifies` clauses. Published events are appended to an `outbox` sequence.

Everything nondeterministic or remote is a parameter:
- the clock (`now`);
- GUIDs;
- the random settlement draw (`settles`);
- the order service's gRPC replies, one per attempt;
- the payment service client's answer;
- the fetched Google token claims;
- the generated temporary password;
- whether a database query, write or publish throws (`storeFails`, `storeError`, `queryError`, `lookupFails`, `recoveryStoreFails`, `fault`), at the points each operation takes such a parameter for. User-repository writes fail only through the UNIQUE index on Email (see "## Left out").

An exception a handler throws out is `Threw(failure)` in a `Completion`, and one a service throws is `Err` in a `Result`.

Amounts are C# `decimal` and are modelled as `real`, so they are exact. Instants are integers in milliseconds.

A few behaviours of the code differ from the natural reading of the system's design. The model follows the code:
- **Amount gate.** A payment whose amount differs from the order total by more than 0.01 is rejected, so 100.00 against 100.02 fails the gate. `GateTolerance` states the inclusive bound.
- **Validation retries.** A "not found" answer is retried exactly like a thrown error. If the details call throws after the order was found, the loop still counts the attempt, waits, and then stops with no details.
- **Google sign-in on a deactivated account.** Google sign-in accepts a deactivated account found by email and issues it a token.
- **Registering a deactivated account's email.** Registration with the email of a deactivated account passes the active-only `EmailExistsAsync` check. The UNIQUE index on `Email` then rejects the insert.
- **RequestPayment's reference.** The "pay_…" reference returned by `RequestPayment` is a fresh GUID, not the stored row's `PaymentId`.

## Model

| member | source | states |
|---|---|---|
| OrderDomain.StatusWritten | NoodleSystem/OrderService/Application/Handlers/PaymentFailedEventHandler.cs:58-62 | Writing a status to an existing order keeps the set of orders. The order gets the new status and UpdatedAt, and its other columns and every other order are unchanged. |
| OrderDomain.RedeliveryKeepsStatus | NoodleSystem/OrderService/Application/Handlers/PaymentCompletedEventHandler.cs:59-67 | A redelivered status write leaves the table as a single write at the later instant does. |
| OrderStore.OrderDb.constructor | NoodleSystem/OrderService/Domain/Repositories/IOrderRepository.cs:3-10 | An empty order store over a given noodle catalogue. |
| OrderStore.OrderDb.Create | NoodleSystem/OrderService/Application/Services/OrderService.cs:42 | Inserts the row under a fresh OrderId and changes nothing else. |
| OrderStore.OrderDb.Update | NoodleSystem/OrderService/Application/Services/OrderService.cs:83 | Overwrites exactly the row with the order's id. |
| OrderStore.OrderDb.AddItems | NoodleSystem/OrderService/Application/Services/OrderService.cs:66-78 | Appends the pending items in order, each with the next item id, and keeps the existing rows. |
| OrderStore.OrderDb.Publish | NoodleSystem/OrderService/Application/Services/OrderService.cs:96 | Appends exactly one message to the outbox. |
| OrderService.FirstUnknownNoodle | NoodleSystem/OrderService/Application/Services/OrderService.cs:49-55 | None exactly when every requested noodle is in the catalogue. Otherwise the result is a missing id. |
| OrderService.FirstUnknownIsAt | NoodleSystem/OrderService/Application/Services/OrderService.cs:49-55 | When every line before i is known and line i is not, line i's noodle is the one reported (the loop throws on the first unknown line). |
| OrderService.PricedItems | NoodleSystem/OrderService/Application/Services/OrderService.cs:57-64 | One priced item row per requested line. |
| OrderService.TotalIsSumOfItemSubtotals | NoodleSystem/OrderService/Application/Services/OrderService.cs:44-67 | The order total accumulated by the loop equals the sum of the stored items' subtotals. |
| OrderService.OrderCreatedItemsMirrorRequest | NoodleSystem/OrderService/Application/Services/OrderService.cs:100-112 | OrderCreated's items match the requested lines one for one: same noodle, same quantity, subtotal BasePrice × Quantity. |
| OrderService.CreateOrder | NoodleSystem/OrderService/Application/Services/OrderService.cs:29-132 | The order is stored Pending with total 0 under a fresh id; if that insert throws, nothing changes and StoreFailure is raised. For an unknown noodle it returns NoodleNotFound, keeps that row, and saves and publishes nothing else. Otherwise the total is the sum of BasePrice × Quantity, the priced items are appended, and PaymentRequested ("VND", final total) is published before OrderCreated (same total, mirrored items). A failing item save, total update or publish raises its failure and leaves exactly what the earlier steps wrote: the Pending row alone, the row with its items at total 0, or the finished order with no or one message published. A request without items stores no item rows, never updates the row, and announces total 0 and no items. |
| OrderService.PriceItems | NoodleSystem/OrderService/Application/Services/OrderService.cs:47-76 | The pricing loop stops at the first unknown noodle and reports it; otherwise it yields one priced row per requested line and their sum as total. |
| OrderService.StoreItemsAndAnnounce | NoodleSystem/OrderService/Application/Services/OrderService.cs:78-124 | With items, their rows are saved and the total is written before PaymentRequested and then OrderCreated are published; each failing step raises and leaves exactly the earlier writes. |
| OrderService.UpdateOrderStatus | NoodleSystem/OrderService/Application/Services/OrderService.cs:223-272 | Returns false exactly when the order is missing, and then publishes and changes nothing. Otherwise the new status is stored and OrderStatusChanged(old, new) is published, then PaymentRequested as well when the new status equals "Confirmed" ignoring case, and true is returned. A failing status write raises StoreFailure with nothing changed; a failing publish raises PublishFailure and keeps the status and any message already published. |
| OrderGrpcService.ValidateOrder | NoodleSystem/OrderService/Application/Services/OrderGrpcService.cs:18-67 | An Internal error exactly when the store throws. Otherwise Exists holds iff the id is stored, and an unknown id gets the "not found" message and no order. A known id gets details copying OrderId, UserId, Status and TotalAmount. The call takes the table by value and never writes it. |
| OrderGrpcService.NotFoundIsNotAnError | NoodleSystem/OrderService/Application/Services/OrderGrpcService.cs:38-45 | An unknown id is a normal reply with Exists false, not an RPC error. |
| OrderCreatedEventHandler.UpdateOrderStatus | NoodleSystem/OrderService/Application/Handlers/OrderCreatedEventHandler.cs:49-65 | A missing order changes nothing and throws nothing. An existing order becomes Processing whatever its status was, and a failing write throws. |
| OrderCreatedEventHandler.Consume | NoodleSystem/OrderService/Application/Handlers/OrderCreatedEventHandler.cs:21-47 | Throws exactly when the status write of an existing order fails, and then changes nothing. Analytics and audit never change the order. |
| PaymentCompletedEventHandler.UpdateOrderStatusToInPreparation | NoodleSystem/OrderService/Application/Handlers/PaymentCompletedEventHandler.cs:53-76 | A missing order throws OrderNotFound. An existing one becomes InPreparation whatever its status was, with only Status and UpdatedAt written. |
| PaymentCompletedEventHandler.HandlePaymentProcessingFailure | NoodleSystem/OrderService/Application/Handlers/PaymentCompletedEventHandler.cs:126-146 | An existing order becomes PaymentProcessingError unless that write fails. A missing order changes nothing, and nothing is thrown. |
| PaymentCompletedEventHandler.Consume | NoodleSystem/OrderService/Application/Handlers/PaymentCompletedEventHandler.cs:23-51 | A missing order throws and changes nothing. A successful write leaves InPreparation. A failed write throws after the failure path has set PaymentProcessingError (unless that write fails as well). |
| PaymentFailedEventHandler.FailureStatus | NoodleSystem/OrderService/Application/Handlers/PaymentFailedEventHandler.cs:58 | PaymentFailedRetryable exactly when the failure is retryable, and Cancelled exactly when it is not. |
| PaymentFailedEventHandler.UpdateOrderStatusToFailed | NoodleSystem/OrderService/Application/Handlers/PaymentFailedEventHandler.cs:46-71 | A missing order throws OrderNotFound. An existing one gets FailureStatus(IsRetryable) whatever its prior status, with only Status and UpdatedAt written. |
| PaymentFailedEventHandler.Consume | NoodleSystem/OrderService/Application/Handlers/PaymentFailedEventHandler.cs:23-44 | Completes exactly when the order exists and the write succeeds. Every exception propagates with nothing changed. |
| OrderPaymentRequestedEventHandler.PerformFraudDetection | NoodleSystem/OrderService/Application/Handlers/PaymentRequestedEventHandler.cs:89-126 | Passes exactly when Amount > 0 and UserId > 0, and the amount is checked first. Amount > 1000 only sets the high-value flag. |
| OrderPaymentRequestedEventHandler.ForwardPaymentRequest | NoodleSystem/OrderService/Application/Handlers/PaymentRequestedEventHandler.cs:128-161 | Fails exactly when the payment service's result is not Success, carrying its error message. |
| OrderPaymentRequestedEventHandler.PaymentTimeoutAt | NoodleSystem/OrderService/Application/Handlers/PaymentRequestedEventHandler.cs:170-171 | The timeout is exactly 15 minutes after RequestedAt. |
| OrderPaymentRequestedEventHandler.RequestSucceedsExactlyWhen | NoodleSystem/OrderService/Application/Handlers/PaymentRequestedEventHandler.cs:40-49 | The steps after the status write all pass iff Amount > 0, UserId > 0 and the payment service accepts. |
| OrderPaymentRequestedEventHandler.UpdateOrderStatus | NoodleSystem/OrderService/Application/Handlers/PaymentRequestedEventHandler.cs:64-87 | A missing order throws OrderNotFound. An existing one becomes AwaitingPayment, or the write's failure is thrown. |
| OrderPaymentRequestedEventHandler.UpdateOrderStatusToFailed | NoodleSystem/OrderService/Application/Handlers/PaymentRequestedEventHandler.cs:195-213 | An existing order becomes PaymentProcessingFailed unless the write fails. A missing order is unchanged, and nothing is thrown. |
| OrderPaymentRequestedEventHandler.Consume | NoodleSystem/OrderService/Application/Handlers/PaymentRequestedEventHandler.cs:27-62 | A missing order throws and changes nothing. When every step passes, the order is AwaitingPayment and the timeout is RequestedAt + 15 min. A fraud or forward failure is rethrown after the failure path has set PaymentProcessingFailed, or left AwaitingPayment when that write fails. |
| OrderPaymentRequestedEventHandler.HandlePaymentTimeout | NoodleSystem/OrderService/Application/Handlers/PaymentRequestedEventHandler.cs:216-241 | Only an order still AwaitingPayment becomes PaymentTimeout, and only then is the payment cancelled. Every other order is untouched and errors are swallowed. |
| PaymentDomain.PaymentDb.constructor | NoodleSystem/PaymentService/Domain/Payment.cs:14-26 | An empty Payments table and outbox. |
| PaymentDomain.PaymentDb.Add | NoodleSystem/PaymentService/Application/Handlers/PaymentRequestedEventHandler.cs:85-86 | Appends the row under the next PaymentId. |
| PaymentDomain.PaymentDb.Save | NoodleSystem/PaymentService/Application/Handlers/PaymentRequestedEventHandler.cs:95-98 | Overwrites exactly the tracked row. |
| PaymentDomain.PaymentDb.Publish | NoodleSystem/PaymentService/Application/Handlers/PaymentRequestedEventHandler.cs:100-108 | Appends exactly one message to the outbox. |
| OrderGrpcClient.ValidateOrderExists | NoodleSystem/PaymentService/Application/Services/OrderGrpcClient.cs:27-45 | Raises exactly on an RPC error. Otherwise it returns the reply's Exists. |
| OrderGrpcClient.GetOrderDetails | NoodleSystem/PaymentService/Application/Services/OrderGrpcClient.cs:47-70 | Raises exactly on an RPC error. Otherwise the answer is exactly null for a missing order and the reply's order for an existing one. |
| OrderGrpcClient.ClientSeesStoredOrder | NoodleSystem/PaymentService/Application/Services/OrderGrpcClient.cs:27-70 | Against a healthy order service the client reports existence and details exactly as stored. |
| PaymentRequestedEventHandler.RetryFrom | NoodleSystem/PaymentService/Application/Handlers/PaymentRequestedEventHandler.cs:46-67 | The loop makes at most 3 attempts and always advances the count. Details are only ever present for an order reported as existing. |
| PaymentRequestedEventHandler.RetryRun | NoodleSystem/PaymentService/Application/Handlers/PaymentRequestedEventHandler.cs:40-67 | The loop from its start makes between 1 and 3 attempts, and details are present only for an order reported as existing. |
| PaymentRequestedEventHandler.ValidateOrderWithRetry | NoodleSystem/PaymentService/Application/Handlers/PaymentRequestedEventHandler.cs:40-67 | The imperative loop leaves exactly the outcome RetryRun specifies: existence, details, attempts made and the waits performed. |
| PaymentRequestedEventHandler.WaitsFrom | NoodleSystem/PaymentService/Application/Handlers/PaymentRequestedEventHandler.cs:62-66 | Starting at count k, the waits are 200·(k+1), 200·(k+2), … and never follow the third attempt. |
| PaymentRequestedEventHandler.BackoffSchedule | NoodleSystem/PaymentService/Application/Handlers/PaymentRequestedEventHandler.cs:62-66 | The waits are 200, 400, … (fewer than 3 of them, no more than the attempts made), and total back-off is at most 600 ms. |
| PaymentRequestedEventHandler.StopsAtFirstExistingFrom | NoodleSystem/PaymentService/Application/Handlers/PaymentRequestedEventHandler.cs:46-55 | From count k, the loop stops right after the first attempt that reports the order exists, and none before it does. |
| PaymentRequestedEventHandler.StopsAtFirstExisting | NoodleSystem/PaymentService/Application/Handlers/PaymentRequestedEventHandler.cs:46-55 | The number of attempts made is one past the first attempt reporting the order exists, or 3 when none does. |
| PaymentRequestedEventHandler.NotFoundRetriedLikeError | NoodleSystem/PaymentService/Application/Handlers/PaymentRequestedEventHandler.cs:50-60 | Answering "not found" or throwing on an attempt gives the same outcome: the two are retried alike. |
| PaymentRequestedEventHandler.NeverFoundWaitsTwice | NoodleSystem/PaymentService/Application/Handlers/PaymentRequestedEventHandler.cs:46-67 | If no attempt finds the order: 3 attempts, waits of 200 and 400 ms, no details. |
| PaymentRequestedEventHandler.PassesGate | NoodleSystem/PaymentService/Application/Handlers/PaymentRequestedEventHandler.cs:69 | A missing order or missing details never pass; a passing amount lies within 0.01 of the order total on either side. |
| PaymentRequestedEventHandler.GateTolerance | NoodleSystem/PaymentService/Application/Handlers/PaymentRequestedEventHandler.cs:69 | With details present, the gate passes iff \|TotalAmount − Amount\| ≤ 0.01 (a difference of exactly 0.01 passes). |
| PaymentRequestedEventHandler.DetailsFailureRejects | NoodleSystem/PaymentService/Application/Handlers/PaymentRequestedEventHandler.cs:51-53 | If the first attempt finds the order but the details call throws, the loop ends after one attempt and a 200 ms wait, with no details. The gate then rejects. |
| PaymentRequestedEventHandler.StoredOrderPassesFirstAttempt | NoodleSystem/PaymentService/Application/Handlers/PaymentRequestedEventHandler.cs:46-74 | Against a healthy order service, a stored order whose total is within 0.01 of the amount passes on the first attempt, without waiting. |
| PaymentRequestedEventHandler.Consume | NoodleSystem/PaymentService/Application/Handlers/PaymentRequestedEventHandler.cs:28-125 | At most one payment row and one message are added, and the only message ever published is PaymentCompleted. Without passing the gate nothing is written. Otherwise the row is "Processing", with the request's amount and "Mock Payment", and a 1000 ms wait follows. On settlement the row becomes Completed with TransactionId "txn_…" and PaidAt, and PaymentCompleted carries the request's OrderId/UserId/Amount and the row's PaymentId/TransactionId/PaidAt. Otherwise the row becomes Failed and nothing is published. Every exception is swallowed. |
| PaymentGrpcService.RequestPayment | NoodleSystem/PaymentService/Application/Services/PaymentGrpcService.cs:19-70 | Success exactly when the save does not throw. On success it appends one Pending "Credit Card" payment for the request's amount and answers "pay_…" with the payment URL and an expiry 15 minutes later. A failed save changes nothing and reports the error. |
| PaymentGrpcService.LatestPaymentIndex | NoodleSystem/PaymentService/Application/Services/PaymentGrpcService.cs:78-81 | None iff the order has no payment. Otherwise a payment of the order with the greatest CreatedAt. |
| PaymentGrpcService.StatusOf | NoodleSystem/PaymentService/Application/Services/PaymentGrpcService.cs:97-111 | Reports the payment's status. A Completed payment with PaidAt reports its TransactionId, amount and PaidAt. A Failed payment reports "Payment processing failed". |
| PaymentGrpcService.GetPaymentStatus | NoodleSystem/PaymentService/Application/Services/PaymentGrpcService.cs:72-120 | An Internal error exactly when the query throws. "NotFound" when the order has no payment. Otherwise the status of a payment of that order created no earlier than any other. |
| PaymentGrpcService.NewestPaymentIsReported | NoodleSystem/PaymentService/Application/Services/PaymentGrpcService.cs:78-111 | A payment recorded no earlier than every other payment of its order is the one reported. |
| PaymentGrpcService.FirstWithStatus | NoodleSystem/PaymentService/Application/Services/PaymentGrpcService.cs:129-131 | The first payment of the order with the given status, or None iff there is none. |
| PaymentGrpcService.CancelPayment | NoodleSystem/PaymentService/Application/Services/PaymentGrpcService.cs:122-166 | Succeeds iff the lookup query works, the order has a Pending payment, and the save works. Then exactly that row becomes Cancelled. Otherwise the table is unchanged and the message says why: a throwing lookup or save is answered with its exception's message, even when no row matches. |
| PaymentGrpcService.CancelLeavesNoPending | NoodleSystem/PaymentService/Application/Services/PaymentGrpcService.cs:129-155 | After the order's only Pending payment is cancelled, a second cancellation finds nothing to cancel. |
| PaymentGrpcService.RefundPayment | NoodleSystem/PaymentService/Application/Services/PaymentGrpcService.cs:168-225 | Succeeds iff the lookup query works, the order has a Completed payment, the refund does not exceed its amount, and the save works. Then exactly that row becomes Refunded with a "rfnd_…" id. Otherwise nothing changes and the message says why: a throwing lookup or save is answered with its exception's message, even when no row matches. |
| UsersRepository.HashPassword | NoodleSystem/UserService/Domain/Repositories/UsersRepository.cs:96-103 | A Base64 SHA-256 digest: 44 characters ending in '='. |
| UsersRepository.VerifyPassword | NoodleSystem/UserService/Domain/Repositories/UsersRepository.cs:105-109 | A null stored password never matches; a match means the stored value has a hash's shape (44 characters ending in '='); the password's own hash always matches. |
| UsersRepository.VerifyOwnHash | NoodleSystem/UserService/Domain/Repositories/UsersRepository.cs:105-109 | A password always verifies against its own hash. |
| UsersRepository.UnhashedNeverVerifies | NoodleSystem/UserService/Domain/Repositories/UsersRepository.cs:105-109 | A stored value that is not 44 characters long matches no password. |
| UsersRepository.StoredRole | NoodleSystem/UserService/Domain/Context/SpicyNoodleDbContext.cs:199 | A new row never stores role 0: an unset role (0) becomes the column default 2, and any other role is kept. |
| UsersRepository.StoredPassword | NoodleSystem/UserService/Domain/Repositories/UsersRepository.cs:52-56 | A non-empty password is stored as its hash, so it verifies. A null or empty one is kept as is. |
| UsersRepository.IndexOfId | NoodleSystem/UserService/Domain/Repositories/UsersRepository.cs:30-34 | The first row with the id, or None iff there is none. |
| UsersRepository.IndexOfEmail | NoodleSystem/UserService/Domain/Repositories/UsersRepository.cs:36-40 | The first row with the email, or None iff there is none. |
| UsersRepository.EmailFindsRow | NoodleSystem/UserService/Domain/Repositories/UsersRepository.cs:36-40 | With unique emails, the email lookup finds exactly the row holding it. |
| UsersRepository.NameLeTotal | NoodleSystem/UserService/Domain/Repositories/UsersRepository.cs:44-47 | The FullName order is total. |
| UsersRepository.InsertByName | NoodleSystem/UserService/Domain/Repositories/UsersRepository.cs:44-47 | Inserting into a name-sorted list keeps it sorted and adds exactly that user. |
| UsersRepository.SortByName | NoodleSystem/UserService/Domain/Repositories/UsersRepository.cs:44-47 | The result is sorted by FullName and is a permutation of the input. |
| UsersRepository.ActiveUsers | NoodleSystem/UserService/Domain/Repositories/UsersRepository.cs:44-46 | Exactly the active rows. |
| UsersRepository.UserRepository.constructor | NoodleSystem/UserService/Domain/Repositories/UsersRepository.cs:25-28 | An empty Users table. |
| UsersRepository.UserRepository.GetById | NoodleSystem/UserService/Domain/Repositories/UsersRepository.cs:30-34 | The row with the id, active or not. None iff no row has it. |
| UsersRepository.UserRepository.GetByEmail | NoodleSystem/UserService/Domain/Repositories/UsersRepository.cs:36-40 | The row with the email, active or not. None iff no row has it. |
| UsersRepository.UserRepository.GetAll | NoodleSystem/UserService/Domain/Repositories/UsersRepository.cs:42-48 | Exactly the active users, each once per row, sorted by FullName. |
| UsersRepository.UserRepository.Exists | NoodleSystem/UserService/Domain/Repositories/UsersRepository.cs:86-89 | Only an id some row holds can exist, and an id whose first row is active does exist. |
| UsersRepository.UserRepository.EmailExists | NoodleSystem/UserService/Domain/Repositories/UsersRepository.cs:91-94 | Only an email some row holds can exist, and an email whose first row is active does exist. |
| UsersRepository.UserRepository.ExistsMeansActiveRow | NoodleSystem/UserService/Domain/Repositories/UsersRepository.cs:86-89 | An id exists iff the row found by id is active. |
| UsersRepository.UserRepository.EmailExistsMeansActiveRow | NoodleSystem/UserService/Domain/Repositories/UsersRepository.cs:91-94 | An email exists iff the row found by email is active. |
| UsersRepository.UserRepository.Create | NoodleSystem/UserService/Domain/Repositories/UsersRepository.cs:50-65 | Appends the user under a fresh id with IsActive true, the password per StoredPassword, the role per StoredRole, and CreatedAt/UpdatedAt set. An email already held by a row fails with DuplicateEmail and changes nothing. |
| UsersRepository.UserRepository.Update | NoodleSystem/UserService/Domain/Repositories/UsersRepository.cs:67-73 | Overwrites exactly the row with the user's id, setting UpdatedAt. The password is stored as given, not hashed. An email held by another row fails with DuplicateEmail. |
| UsersRepository.UserRepository.Delete | NoodleSystem/UserService/Domain/Repositories/UsersRepository.cs:75-84 | Soft delete: the row stays with IsActive false and every other row is unchanged, so the id no longer exists. An unknown id is a no-op. |
| UsersService.GenerateJwtToken | NoodleSystem/UserService/Application/Services/UsersService.cs:170-190 | The token carries the user's id (NameIdentifier), name, email and role claims, and expires seven days after issue. |
| UsersService.Login | NoodleSystem/UserService/Application/Services/UsersService.cs:34-69 | Succeeds iff the row found by email is active, not a Google account, and holds the hash of the password. A failure issues no token, and a success returns a DTO copied from the stored row. |
| UsersService.UnhashedPasswordRejected | NoodleSystem/UserService/Application/Services/UsersService.cs:48-52 | A row whose stored password is not a hash admits no sign-in with that stored text. |
| UsersService.HashedPasswordAccepted | NoodleSystem/UserService/Application/Services/UsersService.cs:38-68 | An active password account storing the hash of p signs in with p. |
| UsersService.GoogleAccountRefusesPassword | NoodleSystem/UserService/Application/Services/UsersService.cs:44-47 | An active Google account is refused password sign-in whatever the password. |
| UsersService.Register | NoodleSystem/UserService/Application/Services/UsersService.cs:71-105 | Refused when an active user has the email. Otherwise a customer is created: password account, active, hashed password, and role 2 (the service leaves Role at 0 and the column default 2 is stored). If a deactivated row holds the email, the insert fails with DuplicateEmail. |
| UsersService.RegisteredUserCanSignIn | NoodleSystem/UserService/Application/Services/UsersService.cs:71-105 | A freshly registered account signs in with its password iff that password is not empty. |
| UsersService.ResettableRow | NoodleSystem/UserService/Application/Services/UsersService.cs:111-114 | The row holding the email when it is active and not a Google account, and None otherwise. |
| UsersService.ForgotPassword | NoodleSystem/UserService/Application/Services/UsersService.cs:107-128 | Always answers true and changes only an existing, active, non-Google row, storing the temporary password. As written the password is unhashed, and no sign-in with the temporary password can then succeed. |
| UsersService.ForgotPasswordHashed | NoodleSystem/UserService/Application/Services/UsersService.cs:107-128 | Same as ForgotPassword except that the temporary password is hashed before it is stored, so signing in with it succeeds. |
| UsersService.ActiveRowById | NoodleSystem/UserService/Application/Services/UsersService.cs:142-146 | The row with the id when it is active, and None otherwise. |
| UsersService.UpdateUser | NoodleSystem/UserService/Application/Services/UsersService.cs:140-157 | A missing or inactive user fails with UserNotFound and nothing changes. Null name or email keep the stored ones, and a null or empty password keeps the stored password. As written a new password is stored unhashed, so it does not sign in. |
| UsersService.UpdateUserHashed | NoodleSystem/UserService/Application/Services/UsersService.cs:140-157 | Same as UpdateUser except that a new password is hashed before it is stored, so a password account signs in with it. |
| UsersService.DeleteUser | NoodleSystem/UserService/Application/Services/UsersService.cs:159-168 | Returns true iff an active user had the id. Then it soft-deletes that user; otherwise nothing changes. Afterwards the id does not exist. |
| UsersService2.VerifyGoogleIdToken | UserService2/Application/Services/UsersService.cs:251-316 | User info exactly when the claims were fetched, the audience equals the configured client id, and an exp claim, when present, is not in the past. The info copies sub, email and name. |
| UsersService2.TokenChecks | UserService2/Application/Services/UsersService.cs:268-296 | A token for another audience is refused, and so is an expired one. A token without exp is not checked for expiry. |
| UsersService2.GoogleLogin | UserService2/Application/Services/UsersService.cs:172-249 | An unverifiable token is refused with nothing changed. An account found by email with no GoogleId is linked: GoogleId set and IsGoogleUser true. An already linked account is not modified. Without an account, a Google customer (active, role 2 from the column default) is created. A failing email lookup (even for an already linked account) or a failing write yields "Google login failed" with nothing changed. |
| UsersService2.LinkedAccountRefusesPassword | UserService2/Application/Services/UsersService.cs:186-195 | After Google sign-in links an active password account, password sign-in for that email is refused. |

## Left out

- Message transport: publishing appends to an outbox and handlers run one at a time. Broker redelivery, MassTransit retry and concurrent consumers are not modelled.
- Logging, console output, and the analytics and audit steps of the order handlers: they only log, and their exceptions are swallowed.
- Delays are recorded as values (`waits`) instead of being slept.
- The random settlement draw, GUIDs, the clock and the temporary password generator are parameters.
- JWT signing and encoding: only the claims and the seven-day expiry are modelled.
- SHA-256 and Base64 inside `HashPassword`: a deterministic stand-in keeps only the output's shape. Injectivity is never used.
- The HTTP fetch and JSON parsing of the Google token: the fetched claims are a parameter, None when the request or parse fails.
- The `double` conversions of amounts across the gRPC boundary: amounts stay exact.
- The order's CreatedAt and UpdatedAt cross the gRPC boundary as "yyyy-MM-ddTHH:mm:ssZ" strings (second precision); `OrderDetails` keeps them as millisecond instants. Nothing in the model decides on them.
- UsersRepository.UserRepository.Create, UsersRepository.UserRepository.Update, UsersRepository.UserRepository.Delete: a save fails only through the UNIQUE index on Email. Any other SaveChanges exception, and a throwing lookup query in the user service, are not modelled; Register, ForgotPassword, UpdateUser and DeleteUser have no try/catch and would let such an exception propagate.
- The SQL Server collation is case-insensitive, but the model compares emails exactly and names ordinally.
- PaymentRequested's Metadata field and OrderItem/OrderCreated noodle names are not modelled (names are left empty).
- `FirstOrDefault` without an ordering is modelled as table order.
- Among payments created at the same instant, `GetPaymentStatus` may report any; the model reports one with the greatest CreatedAt.
- `GetOrderAsync`, `GetOrdersByUserAsync`, `GetAllOrdersAsync`, `GetAvailableNoodlesAsync` and `DeleteOrderAsync` of OrderService are read-only projections or plain repository calls.
- `GetUserByIdAsync` and `GetAllUsersAsync` only delegate to the repository lookups, which are modelled.
- The second user service's sign-in, registration, reset, update and delete are the same code as the first's and are modelled once.
- UserService2's repository is not part of this model. It is taken to behave like the first service's `UserRepository`.
- The order service's OrderRepository implementation is not part of this model. Create, Update, and reading by id are modelled from its interface and its uses.
- The Role column's CHECK constraint (Role IN (1, 2)) is not modelled; the services only ever create rows with the default role.
- OrderService.CreateOrder, OrderService.UpdateOrderStatus: a failing order lookup (`FindAsync`, `GetByIdAsync`) is not modelled; the faults modelled are the writes and the publishes.
- The order-side PaymentRequestedEvent record is not part of this model. Its fields are taken from its uses, and its Currency defaults to "VND".
- Controllers, gRPC and HTTP plumbing, configuration, and database setup are not modelled.
- PaymentRequestedEventHandler.Consume: a fault is modelled at three points (the insert, the settlement save and the publish). An exception thrown elsewhere (such as in the delay) is not.
- UsersRepository.UserRepository.Update: requires that a row has the user's id; saving a missing row makes the source throw a concurrency exception, which no modelled caller can reach.
- UsersService.ForgotPassword: assumes the generated temporary password is 8 characters long, as the generator produces.

## Findings

| source | as written | input that shows it | evidently intended | confidence | as-written member | corrected member |
|---|---|---|---|---|---|---|
| NoodleSystem/UserService/Application/Services/UsersService.cs:107-128 | The temporary password is assigned to the user and saved with `UpdateAsync` (UsersRepository.cs:67-73), which does not hash it, although sign-in compares the hash of the given password with the stored value. | An active password account resets its password. The stored value is the 8-character temporary password, and signing in with it compares a 44-character hash against 8 characters and fails. | Store the hash of the temporary password, so the user can sign in with it. | not executed | UsersService.ForgotPassword, UsersService.UnhashedPasswordRejected | UsersService.ForgotPasswordHashed, UsersService.HashedPasswordAccepted |
| NoodleSystem/UserService/Application/Services/UsersService.cs:140-157 | A new password in the update request is saved with `UpdateAsync` unhashed. | An active password account updates its password to "newpass1". Signing in with "newpass1" then fails, because the stored value is not a hash. | Hash the new password before storing it. | not executed | UsersService.UpdateUser, UsersService.UnhashedPasswordRejected | UsersService.UpdateUserHashed, UsersService.HashedPasswordAccepted |
