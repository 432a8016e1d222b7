# Restaurant violation monitoring: a Dafny model of its logic

The system watches a restaurant kitchen through a camera. A detection service
(Python) runs an object detector on the frames. It throttles and uploads
violations such as a missing apron or mask to a Laravel backend, and it
streams the frames over HTTP. The backend stores cameras, violations,
violation types and users, and answers every request with one JSON
envelope. A React dashboard shows the live feed and the violation history,
and it manages users.

This project models the logic of the three tiers: the rules that decide
something, the small state machines and the wire formats. Each Dafny module
stands for one source file, except `PhpNumeric`, `FormEncoding` and `Common`,
which hold what several modules share:

- Backend:
  - `Responses`: the controller envelope helpers.
  - `ExceptionHandler`: exception rendering.
  - `FormRequests`: the request validators.
  - `PhpNumeric`: PHP's reading of numeric strings, for the `numeric` rule and `$request->integer`.
  - `ApiKey`: the API-key middleware.
  - `Cameras`: the heartbeat endpoint and the health-check reconciler.
  - `Violations`: the violation endpoints.
  - `Users`: the user endpoints.
  - `Auth`: token issue and revocation.
- Detection service:
  - `Throttling`: the per-type submission throttle.
  - `Detection`: class-name mapping and the pending-violation buffer.
  - `Multipart`: the `multipart/x-mixed-replace` frame encoder.
  - `Hls`: HLS playlist check and segment retention.
  - `BackendApi`: the backend client.
  - `FormEncoding`: the bracketed field names the backend client builds (yolo-service/modules/backend_client.py:89-92).
  - `StatusServer`: the status tracker and the one-frame queue.
  - `FfmpegOps`: ffprobe output parsing and the raw-frame length check.
- Dashboard:
  - `WebSocketHook`: the WebSocket hook.
  - `AuthStore`: the auth store.
  - `RestApi`: the `callAPI` error handling.
  - `ApiClient`: the axios interceptors and the violation upload form.
  - `Breadcrumb`: the breadcrumb.
  - `NavUser`: the user menu.
  - Pages: `ViolationHistory`, `HomePage`, `UserForm`, `UserManagement` and `LoginPage`.
  - `AlertDialog`: the confirmation dialog hook.
- Common: text helpers shared by the other modules.

Code that changes state in place becomes a class with `modifies` clauses.
Examples are the camera table, the throttle's dictionary, the auth store and
the page state. Each such method states the whole new state. Decisions and
formats become functions, and lemmas about those functions state the
properties the code promises.

## Model

| member | source | states |
|---|---|---|
| Responses.Success | backend/app/Http/Controllers/Controller.php:12-20 | The envelope's statusCode equals the HTTP status. Message, data and meta are the arguments. |
| Responses.SuccessDefaults | backend/app/Http/Controllers/Controller.php:12 | Given only data, `success` answers 200 with message "Success" and empty meta. |
| Responses.Created | backend/app/Http/Controllers/Controller.php:25-33 | The status is always 201, whatever message and meta are passed. |
| Responses.NoContent | backend/app/Http/Controllers/Controller.php:38-41 | The reply is an empty 204. |
| Responses.NoContentIgnoresMessage | backend/app/Http/Controllers/Controller.php:38-41 | Any two messages give the same 204 reply. |
| Responses.Error | backend/app/Http/Controllers/Controller.php:46-54 | The status is the given code and the body carries the arguments. |
| Responses.Unauthorized | backend/app/Http/Controllers/Controller.php:59-67 | The status is 401, data is null and meta is empty. |
| Responses.Forbidden | backend/app/Http/Controllers/Controller.php:72-80 | The status is 403, data is null and meta is empty. |
| Responses.NotFound | backend/app/Http/Controllers/Controller.php:85-97 | The status is 404. An explicit message wins; otherwise "<resource> not found" for a truthy resource; otherwise "Not found". |
| Responses.ValidationError | backend/app/Http/Controllers/Controller.php:102-110 | The status is 422 and data is the errors map. |
| Responses.Paginate | backend/app/Http/Controllers/Controller.php:115-130 | The meta keys are the four pagination keys plus the caller's keys. A caller key overrides the pagination value of the same name; the others keep it. |
| Responses.SimplePaginatorMeta | backend/app/Http/Controllers/Controller.php:120-121 | Without total() and lastPage(), total is the item count and last_page is 1. |
| ExceptionHandler.ClassBasename | backend/app/Exceptions/Handler.php:74 | The base name holds no namespace separator, and a name without one is its own base name. |
| ExceptionHandler.ClassBasenameLast | backend/app/Exceptions/Handler.php:74 | The base name is the text after the last separator. |
| ExceptionHandler.DefaultMessage | backend/app/Exceptions/Handler.php:110-120 | The default message is never empty. |
| ExceptionHandler.DefaultMessageFallback | backend/app/Exceptions/Handler.php:118 | Every code other than 401, 403, 404, 422 and 500 gets "An error occurred". |
| ExceptionHandler.RenderApiException | backend/app/Exceptions/Handler.php:66-95 | The status is the mapped code. Meta is empty. Data is present exactly for a validation exception, where it is the errors. The message is never empty. |
| ExceptionHandler.StatusCodeTable | backend/app/Exceptions/Handler.php:97-108 | The mapping: authentication 401, access denied 403, model-not-found and not-found 404, validation 422, another HttpException its own code, anything else 500. |
| ExceptionHandler.EmptyMessageGetsDefault | backend/app/Exceptions/Handler.php:80 | A falsy message, "" or "0", is replaced by the default for the status code. |
| ExceptionHandler.OwnMessageKept | backend/app/Exceptions/Handler.php:80 | A truthy message (neither "" nor "0") of an ordinary exception is kept. |
| ExceptionHandler.ModelNotFoundMessage | backend/app/Exceptions/Handler.php:70-78 | A model-not-found exception, direct or wrapped in a not-found HTTP exception, reads "<Model> not found" with status 404. |
| ExceptionHandler.Render | backend/app/Exceptions/Handler.php:28-64 | Whenever JSON is rendered, it is the API exception envelope. |
| ExceptionHandler.JsonPathChoice | backend/app/Exceptions/Handler.php:34-63 | JSON is rendered exactly when there is no route, the path is under api/, `is()` throws, the client expects JSON, or the framework renderer throws. |
| ApiKey.Handle | backend/app/Http/Middleware/CustomApiKeyMiddleware.php:11-24 | The request passes exactly when the header is truthy and identical to the string `env()` makes of VIOLATION_API_KEY. Every refusal is 401 with the body {"message": "Unauthorized"}. |
| ApiKey.EnvString | backend/app/Http/Middleware/CustomApiKeyMiddleware.php:19 | `env()` yields no string for a missing variable or for true, false or null in any case, bare or parenthesised, and never lengthens the value. |
| ApiKey.FalsyHeaderRefused | backend/app/Http/Middleware/CustomApiKeyMiddleware.php:15-17 | A missing header, "" and "0" are refused whatever key is configured. |
| ApiKey.UnsetKeyRefusesAll | backend/app/Http/Middleware/CustomApiKeyMiddleware.php:19-21 | With no key configured, or the key "0" or "empty", every request is refused. |
| ApiKey.KeywordKeyRefusesAll | backend/app/Http/Middleware/CustomApiKeyMiddleware.php:19-21 | A key spelled like a boolean or null refuses every request. |
| ApiKey.TrueKeyRefusesTrue | backend/app/Http/Middleware/CustomApiKeyMiddleware.php:19-21 | With the key set to true, even the header "true" is refused. |
| ApiKey.QuotedKeyUnquoted | backend/app/Http/Middleware/CustomApiKeyMiddleware.php:19-21 | A key in double quotes is matched by the text inside them and not by the quoted text. |
| ApiKey.PlainKeyKept | backend/app/Http/Middleware/CustomApiKeyMiddleware.php:19 | A key that is no keyword and does not start with a quote is read unchanged. |
| Auth.TokenIdOfPlainText | backend/app/Http/Controllers/AuthController.php:23 | A plain-text token "<id>\|<secret>" reads back as the row id it was issued for. |
| Auth.PlainTextsDiffer | backend/app/Http/Controllers/AuthController.php:23 | Tokens of different rows differ, whatever their secrets. |
| Auth.TokenStore.constructor | backend/app/Http/Controllers/AuthController.php:11 | The token table starts empty and valid. |
| Auth.TokenStore.Login | backend/app/Http/Controllers/AuthController.php:14-26 | Bad credentials give 401 "Invalid credentials" with no new token. Otherwise exactly one new row for the user is added, and the reply carries its token and the user. |
| Auth.TokenStore.Logout | backend/app/Http/Controllers/AuthController.php:32-38 | Exactly the current token is removed and the reply is 204. |
| Auth.TokenStore.Refresh | backend/app/Http/Controllers/AuthController.php:44-55 | The current token is removed and one new token for the same user is added, so the count is unchanged. The reply carries the new token. |
| Auth.RefreshedTokenIsNew | backend/app/Http/Controllers/AuthController.php:47-49 | The refreshed token differs from the one it replaces. |
| Users.UserQueryOf | backend/app/Http/Controllers/UserController.php:23-27 | The page size is intval of per_page, or 10 without one. A name or email filter applies exactly when that parameter is filled. |
| Users.ListUsers | backend/app/Http/Controllers/UserController.php:25-28 | A user is listed exactly when its name matches the LIKE pattern `%filter%` for the name filter, and likewise its email for the email filter, where given. |
| Users.LikeRest | backend/app/Http/Controllers/UserController.php:26 | A trailing `%` matches whatever text is left. |
| Users.LikePlainPrefix | backend/app/Http/Controllers/UserController.php:26 | A wildcard-free start of a pattern matches exactly as many characters, equal up to the case of ASCII letters. |
| Users.PlainFilterContains | backend/app/Http/Controllers/UserController.php:26-27 | For a filter without `%` or `_`, the LIKE pattern matches exactly the values that contain the filter, ignoring ASCII case. |
| Users.UnderscoreFilterMatchesNonEmpty | backend/app/Http/Controllers/UserController.php:26 | The filter "_" is a wildcard: its pattern matches exactly the non-empty values. |
| Users.UnderscoreFilterListsNamed | backend/app/Http/Controllers/UserController.php:25-28 | A name filter of "_" lists exactly the users whose name is not empty. |
| Users.PlainFilterListsContaining | backend/app/Http/Controllers/UserController.php:25-28 | A wildcard-free name filter lists exactly the users whose name contains it, ignoring ASCII case. |
| Users.UnfilteredListsAll | backend/app/Http/Controllers/UserController.php:23-28 | Without filled filters every user is listed, in order, 10 per page. |
| Users.BlankFilterIgnored | backend/app/Http/Controllers/UserController.php:26 | A name made only of whitespace does not filter. |
| Users.Patched | backend/app/Http/Controllers/UserController.php:81 | Only the validated fields change. An update without a password keeps the stored one, and the id is kept. |
| Users.UserTable.constructor | backend/app/Http/Controllers/UserController.php:13 | The table holds the given users. |
| Users.UserTable.Update | backend/app/Http/Controllers/UserController.php:79-84 | An unknown id is a model-not-found error and changes nothing. Otherwise that user alone is patched and returned. |
| Users.UserTable.Destroy | backend/app/Http/Controllers/UserController.php:92-101 | Deleting one's own account is refused with 403 "Cannot delete your own account" and changes nothing. Deleting another user removes that row and answers 204. |
| Users.DestroyRemovesOnlyTarget | backend/app/Http/Controllers/UserController.php:98 | With unique ids, the remaining users are exactly the others. |
| Users.SelfDeletionRendered | backend/app/Http/Controllers/UserController.php:94-96 | The refusal renders as a 403 envelope with that message and no data. |
| FormRequests.Validated | backend/app/Http/Requests/ViolationUpdateStatusRequest.php:16-19 | validated() keeps exactly the input fields that some rule names, with their values. |
| FormRequests.PassesEach | backend/app/Http/Requests/ViolationStoreRequest.php:16-24 | A request passes exactly when every rule set of the table passes. |
| FormRequests.KeyFailures | backend/app/Http/Requests/CameraHeartbeatRequest.php:17-18 | A top-level rule set fails exactly when its field fails its rules. |
| FormRequests.EachFailures | backend/app/Http/Requests/ViolationStoreRequest.php:21-23 | A wildcard rule set fails exactly when the field of some element fails, whether the array is a list or an object. |
| FormRequests.RequiredField | backend/app/Http/Requests/ViolationStoreRequest.php:17-18 | A required field passes exactly when it is present and its other rules hold. |
| FormRequests.RequiredAll | backend/app/Http/Requests/ViolationStoreRequest.php:17-18 | A passing required field is present and satisfies every rule. |
| FormRequests.NullableField | backend/app/Http/Requests/ViolationStoreRequest.php:19 | A nullable optional field passes when it is absent, null or blank, or when all its rules hold. |
| FormRequests.SometimesField | backend/app/Http/Requests/ViolationTypeUpdateRequest.php:26-30 | A field under sometimes passes when it is absent, or when every applicable rule holds. |
| FormRequests.OptionalEnumField | backend/app/Http/Requests/CameraHeartbeatRequest.php:18 | A nullable string enumeration accepts an absent, null or blank value, or one of the names. |
| FormRequests.OptionalTextField | backend/app/Http/Requests/ViolationUpdateStatusRequest.php:18 | A nullable string accepts an absent, null or blank value, or any text. |
| FormRequests.KnownStringField | backend/app/Http/Requests/CameraHeartbeatRequest.php:17 | A required field checked with exists or in passes exactly when it is a present text among the known values. |
| FormRequests.TableField | backend/app/Http/Requests/ViolationTypeStoreRequest.php:24-30 | In a passing table, each top-level field passes its own rules. |
| FormRequests.TableEach | backend/app/Http/Requests/ViolationStoreRequest.php:21-23 | In a passing table, each wildcard rule set passes on every element of its list or object. |
| FormRequests.BoundedTextField | backend/app/Http/Requests/ViolationTypeStoreRequest.php:25 | A passing required string with max:n is a text of at most n characters. |
| FormRequests.CodeField | backend/app/Http/Requests/ViolationTypeStoreRequest.php:27 | A passing code is a text of at most 20 characters, matches ^[A-Z0-9]+$ and is not taken. |
| FormRequests.BooleanField | backend/app/Http/Requests/ViolationTypeStoreRequest.php:29 | A passing required boolean is present and boolean. |
| FormRequests.HeartbeatAccepts | backend/app/Http/Requests/CameraHeartbeatRequest.php:16-19 | A heartbeat passes exactly when camera_code is a present text naming a known camera, and status is absent, null, blank or one of active, inactive and maintenance. |
| FormRequests.HeartbeatStatusParses | backend/app/Http/Requests/CameraHeartbeatRequest.php:18 | An accepted non-blank status is one the heartbeat controller understands. |
| FormRequests.UpdateStatusAccepts | backend/app/Http/Requests/ViolationUpdateStatusRequest.php:16-19 | A status update passes exactly when status is one of pending, reviewed and resolved, and notes are absent, null or text. |
| FormRequests.UpdateStatusValidatedKeys | backend/app/Http/Requests/ViolationUpdateStatusRequest.php:16-19 | Only status and notes survive validation. |
| FormRequests.DetailUpdateStatusAccepts | backend/app/Http/Requests/ViolationDetailUpdateStatusRequest.php:16-19 | A detail update passes exactly when status is one of unverified, confirmed and dismissed, and additional_info is absent, null or text. |
| FormRequests.TypeStoreAccepted | backend/app/Http/Requests/ViolationTypeStoreRequest.php:24-30 | An accepted new type has a name of at most 255 characters and an untaken code of at most 20 characters matching the pattern. Its severity is low, medium or high, and is_active is boolean. |
| FormRequests.UnderscoreCodeRejected | backend/app/Http/Requests/ViolationTypeStoreRequest.php:27 | The seeded code NO_APRON is refused by the store validator. |
| FormRequests.CodesOfOthers | backend/app/Http/Requests/ViolationTypeUpdateRequest.php:28 | The taken codes are exactly those of every other stored type. |
| FormRequests.TypeUpdateAbsentFields | backend/app/Http/Requests/ViolationTypeUpdateRequest.php:26-30 | An empty update passes: absent fields are not validated. |
| FormRequests.TypeUpdateKeepsOwnCode | backend/app/Http/Requests/ViolationTypeUpdateRequest.php:28 | A type may be updated with its own code, since uniqueness ignores it. |
| FormRequests.ImageField | backend/app/Http/Requests/ViolationStoreRequest.php:17 | A passing image is an uploaded image of type jpg, jpeg, png or webp, at most 10240 KB. |
| FormRequests.NonEmptyListField | backend/app/Http/Requests/ViolationStoreRequest.php:20 | A passing violation_details is an array, and a list or object has at least one entry. |
| FormRequests.ScoreField | backend/app/Http/Requests/ViolationStoreRequest.php:22 | A confidence_score passes exactly when it is absent, null or blank, or a number or numeric text whose value lies in [0, 1]. |
| PhpNumeric.NumericTextOfDecimal | backend/app/Http/Requests/ViolationStoreRequest.php:22 | The `numeric` rule accepts every number as the clients print it, and reads back its value. |
| FormRequests.ScoreTextAccepted | backend/app/Http/Requests/ViolationStoreRequest.php:22 | A printed number sent as a confidence score passes exactly when its value lies in [0, 1]. |
| PhpNumeric.NumericNeedsDigit | backend/app/Http/Requests/ViolationStoreRequest.php:22 | Text the `numeric` rule accepts holds at least one digit, so blank text, a lone sign and a lone point are refused. |
| PhpNumeric.RunNeedsDigit | backend/app/Http/Requests/ViolationStoreRequest.php:22 | A scan that starts before any digit and ends in an accepting state has read a digit on the way. |
| PhpNumeric.AccumulateDecimal | backend/app/Http/Requests/ViolationStoreRequest.php:22 | Reading the printed digits of a whole number gives that number back. |
| PhpNumeric.AccumulateFraction | backend/app/Http/Requests/ViolationStoreRequest.php:22 | Reading fraction digits after a whole part and scaling by their count adds exactly the fraction value. |
| PhpNumeric.RunConcat | backend/app/Http/Requests/ViolationStoreRequest.php:22 | Scanning a concatenation is scanning the first part, then the second from where the first stopped. |
| PhpNumeric.RunDigitRun | backend/app/Http/Requests/ViolationStoreRequest.php:22 | A run of digits after optional whitespace or a sign leaves the scan in the whole part, holding the value of the digits. |
| PhpNumeric.RunFractionRun | backend/app/Http/Requests/ViolationStoreRequest.php:22 | Digits after the point extend the mantissa and count one decimal place each. |
| PhpNumeric.RunPointed | backend/app/Http/Requests/ViolationStoreRequest.php:22 | A point followed by digits moves a whole-part scan into the fraction with those digits read. |
| PhpNumeric.RunUnsigned | backend/app/Http/Requests/ViolationStoreRequest.php:22 | An unsigned printed number ends the scan in the whole part or the fraction, with its digits read and one place per fraction digit. |
| PhpNumeric.ScanValueOfDecimal | backend/app/Http/Requests/ViolationStoreRequest.php:22 | The value of a scan over a printed number is the number itself. |
| FormRequests.BlankIsTrimmedAway | backend/app/Http/Requests/ViolationStoreRequest.php:22 | Text is blank exactly when trimming the PHP whitespace set leaves nothing. |
| FormRequests.ViolationStoreAccepted | backend/app/Http/Requests/ViolationStoreRequest.php:16-24 | An accepted upload has a valid image, a known camera and at least one detail entry, in a list or an object. Each entry names a known type. A score, when given and not blank, is a number or numeric text whose value lies in [0, 1]. |
| FormRequests.EntryAccepted | backend/app/Http/Requests/ViolationStoreRequest.php:21-22 | An element whose code and score fields pass their rules is an accepted detail entry. |
| FormRequests.ObjectEntryWithoutCodeRejected | backend/app/Http/Requests/ViolationStoreRequest.php:20-21 | Details sent as an object are checked entry by entry: an entry without a violation code is refused. |
| FormRequests.DetailsAsTextRejected | backend/app/Http/Requests/ViolationStoreRequest.php:20 | Details sent as one text value are not an array, so the upload is refused. |
| Cameras.ParseStatus | backend/app/Http/Requests/CameraHeartbeatRequest.php:18 | Exactly the names active, inactive and maintenance denote a status, and each reads back as its name. |
| Cameras.ApplyUpdate | backend/app/Models/Camera.php:12-23 | An update replaces exactly the fields it carries, and every other field of the row is kept. |
| Cameras.HeartbeatFields | backend/app/Http/Controllers/CameraHeartbeatController.php:29-41 | A heartbeat sets connected_at to now. It overwrites the status only when one is given. It leaves yolo_detection_status, last_maintenance_at and the code alone. |
| Cameras.HeartbeatClearsDisconnect | backend/app/Http/Controllers/CameraHeartbeatController.php:36-38 | disconnected_at changes exactly when an inactive camera with a disconnection time reports active, and it only ever becomes null. |
| Cameras.HeartbeatFromMaintenance | backend/app/Http/Controllers/CameraHeartbeatController.php:33-38 | A maintenance camera reporting active keeps its old disconnection time, so it ends up active but still disconnected. |
| Cameras.HeartbeatKeepsConsistency | backend/app/Http/Controllers/CameraHeartbeatController.php:29-41 | From a consistent inactive or active camera, a heartbeat leaves an active camera connected and not disconnected. |
| Cameras.Classify | backend/tests/Feature/CameraHealthIntegrationTest.php:20-25 | A health reply is healthy exactly when the camera has a service URL and the reply is 2xx. A non-2xx reply is unhealthy with its code. |
| Cameras.Resolve | backend/tests/Feature/CameraHealthIntegrationTest.php:32-35 | A healthy outcome targets active, detecting, connected now and not disconnected. Any other outcome targets inactive, not detecting, not connected and disconnected now. |
| Cameras.ReconcileEffect | backend/tests/Feature/CameraHealthIntegrationTest.php:30-76 | The reconciler writes the row and dispatches CameraStatusUpdated (code, new status, new timestamps) exactly when the status changes. Maintenance cameras are left alone. No other field changes. |
| Cameras.ReconcileIdempotent | backend/tests/Feature/CameraHealthIntegrationTest.php:111-153 | A second pass with the same outcome writes nothing and dispatches no event. |
| Cameras.ConnectionErrorIsUnhealthy | backend/tests/Feature/CameraHealthIntegrationTest.php:91-108 | A connection error has the same effect and event as a non-2xx reply. |
| Cameras.ReconcileKeepsConsistency | backend/tests/Feature/CameraHealthIntegrationTest.php:30-35 | Reconciliation keeps an active camera connected and not disconnected. |
| Cameras.PassEvents | backend/tests/Feature/CameraHealthIntegrationTest.php:37-42 | A pass dispatches at most one event per camera. |
| Cameras.CameraRegistry.constructor | backend/app/Models/Camera.php:12-23 | The table holds the given rows, with unique codes and no events. |
| Cameras.CameraRegistry.Heartbeat | backend/app/Http/Controllers/CameraHeartbeatController.php:19-44 | An unknown code answers 404 "Camera not found" and changes nothing. A known camera gets the heartbeat update and a 200 "Heartbeat received" reply with the updated row. |
| Cameras.CameraRegistry.ReconcileRow | backend/tests/Feature/CameraHealthIntegrationTest.php:30-42 | Only the given row changes, to its reconciled form, and the events gain exactly that row's event, if any; codes stay unique. |
| Cameras.CameraRegistry.HealthCheck | backend/tests/Feature/CameraHealthIntegrationTest.php:27-28 | Every row is reconciled with its own reply, the events are those of the pass in row order, and the exit code is always 0. |
| Violations.ParseViolationStatus | backend/app/Http/Controllers/ViolationController.php:34 | Exactly pending, reviewed and resolved pass the whitelist, and each reads back as its name. |
| Violations.ListQueryOf | backend/app/Http/Controllers/ViolationController.php:26-36 | The page size is intval of per_page, or 12 without one, sorted by created_at descending. The status filter is set exactly when the given status is whitelisted. |
| Violations.StatusFilter | backend/app/Http/Controllers/ViolationController.php:34-36 | A missing or unlisted status filters nothing out. A whitelisted one keeps exactly the violations with that status. |
| Violations.NewDetails | backend/app/Http/Controllers/ViolationController.php:68-77 | One detail row per entry, in order, each unverified. A missing score or info is stored as null. The rows stop at the first unknown violation code. |
| Violations.NewDetailsSnoc | backend/app/Http/Controllers/ViolationController.php:68-77 | One more known entry appends exactly one row. |
| Violations.NewDetailsStop | backend/app/Http/Controllers/ViolationController.php:69 | At the first unknown code, the rows inserted are those of the entries before it. |
| Violations.AllKnownSnoc | backend/app/Http/Controllers/ViolationController.php:69 | A known entry extends a prefix of known entries. |
| Common.IndexOfId | backend/app/Http/Controllers/ViolationController.php:101 | The first row with the id is found, or no row has it. |
| Violations.AfterStatusUpdate | backend/app/Http/Controllers/ViolationController.php:103 | The status always takes the new value. Notes change only when the key is present, and no other column changes. |
| Violations.DetailsWithout | backend/app/Http/Controllers/ViolationController.php:124 | The remaining details are exactly those of other violations. |
| Violations.ViolationTables.constructor | backend/app/Http/Controllers/ViolationController.php:16 | The tables start empty, with the given camera and type codes. |
| Violations.ViolationTables.Store | backend/app/Http/Controllers/ViolationController.php:49-80 | The image is stored first, and an unknown camera aborts before any row. Otherwise one pending violation with the given notes or null is inserted, then its details. The reply is 201, or a model-not-found error at an unknown type, keeping the rows already inserted. |
| Violations.ViolationTables.InsertDetails | backend/app/Http/Controllers/ViolationController.php:66-76 | One unverified detail row per entry is appended, in order, stopping at the first unknown type; the result is false exactly when some type is unknown. |
| Violations.ViolationTables.UpdateStatus | backend/app/Http/Controllers/ViolationController.php:101-106 | Any status may follow any other. Only the targeted violation changes, and only in status and notes. |
| Violations.ViolationTables.Destroy | backend/app/Http/Controllers/ViolationController.php:114-127 | The row and its details are deleted and the reply is 204, even when deleting the image throws. The image is removed only when the path is truthy and the disk does not throw. |
| Violations.UnknownCameraMessage | backend/app/Http/Controllers/ViolationController.php:57 | An unknown camera renders as "Camera not found". |
| Violations.UnknownTypeMessage | backend/app/Http/Controllers/ViolationController.php:57 | An unknown violation type renders as "ViolationType not found". |
| Throttling.EffectiveDelay | yolo-service/modules/violation_queue.py:11 | A delay of None or 0 falls back to the configured default; any other value is kept. |
| Throttling.ViolationQueue.constructor | yolo-service/modules/violation_queue.py:10-12 | The queue starts with the effective delay and no recorded submissions. |
| Throttling.ViolationQueue.CanSubmit | yolo-service/modules/violation_queue.py:15-23 | Allowed exactly when now minus the type's last time (0 when unseen) is at least the delay. An allowed call records now for that type alone; a refused one changes nothing. |
| Throttling.ViolationQueue.RemainingTime | yolo-service/modules/violation_queue.py:25-31 | The remaining time is never negative, and it is 0 exactly when a submission would be allowed. Otherwise it is the delay minus the elapsed time. |
| Throttling.ViolationQueue.Reset | yolo-service/modules/violation_queue.py:33-38 | A truthy type is forgotten alone; None or "" forgets every type. |
| Throttling.OtherTypesUnaffected | yolo-service/modules/violation_queue.py:12-21 | Recording one type leaves every other type's allowance unchanged. |
| Throttling.RefusedRightAfter | yolo-service/modules/violation_queue.py:20-21 | After an allowed submission, the same type is refused until the delay has passed. |
| Throttling.UnseenTypeAllowed | yolo-service/modules/violation_queue.py:19 | An unseen type counts from time 0. |
| Detection.FallbackCode | yolo-service/main.py:53 | The fallback code has the name's length, no '-' and no lower-case letter. |
| Detection.FallbackAgrees | yolo-service/main.py:53 | A code that is the name upper-cased with '-' replaced by '_', character by character, is the fallback code. |
| Detection.TableAgreesWithFallback | yolo-service/main.py:48-53 | The explicit table agrees with the fallback, so every class maps to its upper-case form with '-' replaced by '_'. |
| Detection.MappingIdempotent | yolo-service/main.py:53 | For ASCII names, mapping a code again leaves it unchanged. |
| Detection.ViolationTypesOf | yolo-service/main.py:309-313 | The violation types of a frame are exactly the detected classes starting with "no-", each once. |
| Detection.ViolationTypesPrefix | yolo-service/main.py:309-313 | Later detections never reorder the types found so far. |
| Detection.FindViolationTypes | yolo-service/main.py:309-313 | The filter loop yields the "no-" classes of the frame, each once, in order of first detection. |
| Detection.DetectedNotes | yolo-service/main.py:147 | The notes read "Detected " followed by the type. |
| Detection.SubmissionOf | yolo-service/main.py:108-126 | A submission carries one detail with the violation code, a null confidence score and null additional info, plus the pending notes. |
| Detection.Plan | yolo-service/main.py:103-106 | A pass submits each snapshot type at most once, exactly when the throttle allows it, with its first frame. Throttled types are not resubmitted. |
| Detection.RecordDue | yolo-service/main.py:104 | After a pass, the throttle records now for every allowed type, and every other type keeps its time. |
| Detection.ViolationSubmitter.constructor | yolo-service/main.py:59-62 | The pending buffer starts empty. |
| Detection.ViolationSubmitter.AddViolation | yolo-service/main.py:134-156 | The new frame replaces whatever was pending for its type, so each pending list holds exactly one frame. |
| Detection.ViolationSubmitter.ProcessViolations | yolo-service/main.py:97-106 | The buffer is snapshotted and cleared before any submission. The submissions and the throttle's new record are those of the plan. |
| Detection.RecordDetections | yolo-service/main.py:309-319 | Every "no-" class of the frame is buffered under its code with this frame, and other pending types are kept. |
| Detection.SubmittedForm | yolo-service/main.py:116-125 | The backend receives exactly the camera code, the notes and violation_details[0][violation_code]. |
| Multipart.HeaderMiddle | yolo-service/modules/sse_encoder.py:45-47 | The bytes after the boundary begin with the CRLF that ends the delimiter line, and have a fixed length. |
| Multipart.LengthDigits | yolo-service/modules/sse_encoder.py:47 | The Content-Length value is a non-empty run of ASCII digits. |
| Multipart.EncodeFrame | yolo-service/modules/sse_encoder.py:40-49 | A failed encoding gives None. Otherwise the part starts with "--", the boundary and CRLF, ends with CRLF, and has the header length plus the payload length plus 2 bytes. |
| Multipart.EncodedPartShape | yolo-service/modules/sse_encoder.py:45-49 | The part is the delimiter, the Content-Type line, the Content-Length line, an empty line, the payload and a CRLF. |
| Multipart.FirstIndex | yolo-service/modules/sse_encoder.py:45 | The first position of a byte, or the length when it does not occur. |
| Multipart.FirstIndexAfter | yolo-service/modules/sse_encoder.py:45 | The first CR after a CR-free boundary is where the boundary ends. |
| Multipart.LeadingDigitBytes | yolo-service/modules/sse_encoder.py:47 | The leading digits are a prefix made only of digits. |
| Multipart.LeadingDigitBytesStop | yolo-service/modules/sse_encoder.py:47 | The digits of the length stop at the CR that follows them. |
| Multipart.BytesValueOfDigits | yolo-service/modules/sse_encoder.py:47 | Reading the ASCII digits back gives the decimal value they spell. |
| Multipart.ParseFrame | yolo-service/modules/sse_encoder.py:45 | A parsed boundary contains no CR. |
| Multipart.HeadersRoundTrip | yolo-service/modules/sse_encoder.py:46-49 | Parsing the headers reads the declared length back and yields exactly the payload. |
| Multipart.ParseHeadersAccepts | yolo-service/modules/sse_encoder.py:46-49 | Headers with any non-empty digit run whose value is the payload length are read back to exactly that payload. |
| Multipart.ParseAtBoundary | yolo-service/modules/sse_encoder.py:45 | A CR-free boundary is read back whole. |
| Multipart.FrameRoundTrip | yolo-service/modules/sse_encoder.py:45-49 | Parsing an encoded part gives back its boundary and its payload exactly. |
| Hls.ContainsInfix | yolo-service/modules/hls_manager.py:32 | A text contains every piece placed inside it. |
| Hls.PlaylistValidAnywhere | yolo-service/modules/hls_manager.py:29-34 | A playlist mentioning #EXTM3U and ".ts" anywhere, in that order or with any text around them, is valid. An unreadable playlist is not. |
| Hls.AfterLast | yolo-service/modules/hls_manager.py:44 | split(p)[-1] is a suffix that follows the last occurrence of the marker. |
| Hls.BeforeFirst | yolo-service/modules/hls_manager.py:44 | split(p)[0] is the prefix before the first occurrence of the marker. |
| Hls.AfterLastStep | yolo-service/modules/hls_manager.py:44 | Without the marker at the end, the last character belongs to the suffix. |
| Hls.AfterLastOf | yolo-service/modules/hls_manager.py:44 | The text after the marker is read back when it cannot contain the marker's last character. |
| Hls.BeforeFirstOf | yolo-service/modules/hls_manager.py:44 | The text before the marker is read back when it cannot contain the marker's first character. |
| Hls.SegmentIndexOfName | yolo-service/modules/hls_manager.py:44 | A file named <dir>/stream<n>.ts sorts by the number n itself, not by its text. |
| Hls.KeysOf | yolo-service/modules/hls_manager.py:44 | Every file gets its key, or the sort fails as soon as one key cannot be read. |
| Hls.Insert | yolo-service/modules/hls_manager.py:44 | Insertion keeps the elements and the order by key. |
| Hls.SortByKey | yolo-service/modules/hls_manager.py:44 | The sorted list is ordered by key and is a permutation of the input. |
| Hls.SliceTo | yolo-service/modules/hls_manager.py:47 | s[:stop] with Python's reading of a negative stop. |
| Hls.Names | yolo-service/modules/hls_manager.py:47-48 | The names of the entries, in order. |
| Hls.CleanupDeletesOldest | yolo-service/modules/hls_manager.py:46-51 | With more files than it keeps, exactly count - keep_count files are deleted, and none of them has a higher index than a kept one. |
| Hls.KeepZeroDeletesNothing | yolo-service/modules/hls_manager.py:47 | A keep count of 0 deletes nothing, since [:-0] is empty. |
| Hls.CleanupNoOp | yolo-service/modules/hls_manager.py:46-55 | Nothing is deleted when every file is kept or a name has no index. |
| Hls.Without | yolo-service/modules/hls_manager.py:48-49 | The remaining files are exactly those not deleted. |
| Hls.HlsManager.constructor | yolo-service/modules/hls_manager.py:10-18 | The manager keeps the directory, the keep count and the listed segments. |
| Hls.HlsManager.CleanupOldSegments | yolo-service/modules/hls_manager.py:36-55 | The return value is the number of planned deletions, and exactly those files are gone. |
| Hls.HlsManager.RemoveAll | yolo-service/modules/hls_manager.py:48-49 | The deletion loop removes exactly the given files. |
| Hls.WithoutNothing | yolo-service/modules/hls_manager.py:48-49 | Deleting nothing keeps every file. |
| Hls.WithoutTwice | yolo-service/modules/hls_manager.py:48-49 | Deleting in two rounds is deleting both lists. |
| BackendApi.OrDefault | yolo-service/modules/backend_client.py:30-32 | A given, non-empty setting is kept; None or "" falls back to the configured default. |
| BackendApi.EntryFields | yolo-service/modules/backend_client.py:89-92 | One detail gives exactly the bracketed names of its non-None keys, each carrying that key's value. |
| BackendApi.DetailFieldOrigin | yolo-service/modules/backend_client.py:89-92 | Every detail field of the form names a present value of some detail at its index. |
| BackendApi.DetailFieldCarried | yolo-service/modules/backend_client.py:89-92 | Every non-None value of every detail is in the form under `violation_details[i][key]`, with its value. |
| BackendApi.DetailFieldsArePlainFree | yolo-service/modules/backend_client.py:82-92 | No detail field can overwrite a plain field such as camera_code or notes. |
| BackendApi.FormData | yolo-service/modules/backend_client.py:82-92 | The form has camera_code always, notes exactly when given, the detail fields, and nothing else. |
| BackendApi.UploadName | yolo-service/modules/backend_client.py:80 | The upload name contains no '/', and is the whole path when the path has none. |
| BackendApi.UploadNameOfPath | yolo-service/modules/backend_client.py:80 | A file under a directory is uploaded under its own name. |
| BackendApi.BackendClient.constructor | yolo-service/modules/backend_client.py:30-33 | The URL, key and camera code are the arguments or their configured fallbacks; no file is open. |
| BackendApi.BackendClient.Headers | yolo-service/modules/backend_client.py:47-54 | JSON is always accepted; X-API-Key is sent exactly when the key is non-empty. |
| BackendApi.BackendClient.SubmitViolation | yolo-service/modules/backend_client.py:77-121 | Each of these raises: a missing file, a transport failure, a non-2xx status, a 2xx body that is not JSON, and a 2xx body that is not an object or whose data is present and not an object. Otherwise the form went to /api/violations as image/jpeg. The file is closed on every path. |
| BackendApi.HealthCheck | yolo-service/modules/backend_client.py:158-163 | The backend counts as healthy exactly on a 200 reply. |
| FormEncoding.FirstClose | yolo-service/modules/backend_client.py:92 | The first ']' lies within the text (helper for decoding a field name). |
| FormEncoding.FirstCloseAfterNumeral | yolo-service/modules/backend_client.py:92 | In `<index>]...` the first ']' follows the index. |
| FormEncoding.NumeralPrefix | yolo-service/modules/backend_client.py:92 | Two index numerals followed by ']' and the same text coincide only when the numerals do. |
| FormEncoding.BracketKeyInjective | yolo-service/modules/backend_client.py:92 | Distinct (index, key) pairs never share a field name, so no detail value overwrites another. |
| FormEncoding.BracketKeyNotPlain | yolo-service/modules/backend_client.py:92 | A bracketed field name differs from every name without '['. |
| StatusServer.SystemStatus.constructor | yolo-service/modules/http_server.py:18-24 | All three flags start false, no client is counted, and the start time is recorded. |
| StatusServer.SystemStatus.SetYoloStatus | yolo-service/modules/http_server.py:26-28 | Only the YOLO flag changes. |
| StatusServer.SystemStatus.SetCameraStatus | yolo-service/modules/http_server.py:30-32 | Only the camera flag changes. |
| StatusServer.SystemStatus.SetStreamerStatus | yolo-service/modules/http_server.py:34-36 | Only the streamer flag changes. |
| StatusServer.SystemStatus.UpdateClientCount | yolo-service/modules/http_server.py:38-40 | The count moves by delta, unclamped; the flags stay. |
| StatusServer.SystemStatus.StatusDict | yolo-service/modules/http_server.py:42-53 | The report is always "ok", with the configured mode and source, the current flags and count, and the time since start. |
| StatusServer.ConnectStreamClient | yolo-service/modules/http_server.py:128-131 | Outside SSE mode the error body is returned and nobody is counted; in SSE mode one client is added and the frame stream starts. |
| StatusServer.Values | yolo-service/modules/http_server.py:136-140 | A frame is delivered exactly when some poll found it, and there are no more frames than polls. |
| StatusServer.Found | yolo-service/modules/http_server.py:72-84 | Each poll finds the frame put since the previous one. A frame already waiting at connect time keeps the slot, and the first arrival is dropped. |
| StatusServer.StreamSession | yolo-service/modules/http_server.py:131-150 | The client receives the frames the polls found, in order; outside SSE mode it receives none and the slot is untouched. However the stream ends, the count is back where it was. |
| StatusServer.NothingWaitingDeliversAll | yolo-service/modules/http_server.py:131-150 | With no frame waiting at connect time, the client receives every frame that arrived, in order. |
| StatusServer.FrameQueue.constructor | yolo-service/modules/http_server.py:58-66 | Before start-up the adapter is not ready and there is no loop, queue or frame. |
| StatusServer.FrameQueue.Startup | yolo-service/modules/http_server.py:100-102 | Start-up creates the loop and the empty one-slot queue, then marks the adapter ready. |
| StatusServer.FrameQueue.Put | yolo-service/modules/http_server.py:72-84 | A frame is accepted exactly when the adapter is ready and the slot empty; a refused frame leaves the slot as it was. |
| StatusServer.FrameQueue.Get | yolo-service/modules/http_server.py:86-87 | The adapter's get never yields a frame. |
| StatusServer.FrameQueue.Take | yolo-service/modules/http_server.py:138 | The reader receives the waiting frame and the slot is empty again. |
| StatusServer.SecondPutDropped | yolo-service/modules/http_server.py:72-101 | With no reader, of two frames the second is dropped and the first stays. |
| FfmpegOps.EffectiveTimeout | yolo-service/modules/ffmpeg_ops.py:224 | A missing or zero timeout becomes the configured one; any other is kept. |
| FfmpegOps.FFmpegStreamer.constructor | yolo-service/modules/ffmpeg_ops.py:20-24 | The URL and dimensions are kept, the frame size is width × height × 3 bytes, and no process is running. |
| FfmpegOps.ReaderCommand | yolo-service/modules/ffmpeg_ops.py:32-53 | The reader runs ffmpeg on the URL, without audio, and writes raw bgr24 frames (three bytes a pixel) to its standard output. |
| FfmpegOps.FFmpegStreamer.Start | yolo-service/modules/ffmpeg_ops.py:26-57 | After start a process with a stdout pipe exists, running the reader command. |
| FfmpegOps.FFmpegStreamer.GetFrame | yolo-service/modules/ffmpeg_ops.py:65-76 | A frame comes back exactly when a process with a stdout exists and the read returned a full, non-empty frame, and it is those bytes. |
| FfmpegOps.Dimensions | yolo-service/modules/ffmpeg_ops.py:224-253 | A timeout, a non-zero exit or blank output gives (1280, 720). |
| FfmpegOps.Fps | yolo-service/modules/ffmpeg_ops.py:266-291 | A timeout, a non-zero exit or blank output gives 25. |
| FfmpegOps.FirstLineOf | yolo-service/modules/ffmpeg_ops.py:244 | The first line of the stripped output is the line ffprobe printed first. |
| FfmpegOps.FirstFieldParts | yolo-service/modules/ffmpeg_ops.py:245-249 | The first field of "a<sep>b" on the first line splits into exactly a and b. |
| FfmpegOps.DimensionsOfProbe | yolo-service/modules/ffmpeg_ops.py:243-250 | A "WxH" answer reads back as (W, H), whatever lines follow. |
| FfmpegOps.FpsOfProbe | yolo-service/modules/ffmpeg_ops.py:285-288 | A "num/den" answer with den ≠ 0 reads back as num / den. |
| FfmpegOps.ZeroDenominatorDefault | yolo-service/modules/ffmpeg_ops.py:287-291 | A zero denominator falls back to 25. |
| FfmpegOps.DimensionsWithoutSeparator | yolo-service/modules/ffmpeg_ops.py:247-253 | A first field without 'x' falls back to (1280, 720). |
| WebSocketHook.CloseDecision | frontend/src/hooks/use-websocket.ts:95-117 | A reconnect is scheduled exactly when reconnecting is allowed, the count is below the limit and the code is not 1000; failure is reported exactly when the limit is reached. |
| WebSocketHook.Timers.Set | frontend/src/hooks/use-websocket.ts:104-106 | A new timer is pending and named by the ref, and the earlier ones stay pending. |
| WebSocketHook.Timers.ClearRef | frontend/src/hooks/use-websocket.ts:166-169 | Clearing the ref's timer removes it alone and empties the ref; when every pending timer was the ref's, none is left. |
| WebSocketHook.NoReconnectAfterNormalOrManual | frontend/src/hooks/use-websocket.ts:94-99 | A normal closure or a manual disconnect never schedules a reconnect. |
| WebSocketHook.WebSocketClient.constructor | frontend/src/hooks/use-websocket.ts:28-49 | The interval and limit default to 3000 and 5; nothing is connected, no timer is set, no attempt is counted and reconnecting is allowed. |
| WebSocketHook.WebSocketClient.Connect | frontend/src/hooks/use-websocket.ts:51-71 | Connecting is a no-op while the current socket is open or connecting or a connect is under way. Otherwise the old socket is let go and a new one is created and becomes current, or a failure message is recorded when construction throws. |
| WebSocketHook.WebSocketClient.OnOpen | frontend/src/hooks/use-websocket.ts:73-83 | Opening marks that socket open and the hook connected, clears the error and resets the attempt count. |
| WebSocketHook.WebSocketClient.ClosingHandshakeStarted | frontend/src/hooks/use-websocket.ts:61-64 | When the server starts closing an open socket, only its ready state changes, to closing. |
| WebSocketHook.WebSocketClient.OnClose | frontend/src/hooks/use-websocket.ts:85-118 | A close marks that socket closed and the hook disconnected, whichever socket is current. As CloseDecision says, it then sets a new timer with one more attempt, overwriting the ref but leaving any earlier timer pending; or it reports the give-up message; or it stays closed. The count never passes the limit. |
| WebSocketHook.WebSocketClient.OnCloseClearingTimer | frontend/src/hooks/use-websocket.ts:104-106 | The intended close clears the ref's timer before setting a new one, so every pending timer stays the one the ref names. |
| WebSocketHook.WebSocketClient.OnError | frontend/src/hooks/use-websocket.ts:120-131 | An error is recorded and connecting stops; the connection state is otherwise unchanged. |
| WebSocketHook.WebSocketClient.OnMessage | frontend/src/hooks/use-websocket.ts:133-139 | The last message is the one received; nothing else changes. |
| WebSocketHook.WebSocketClient.TimerFires | frontend/src/hooks/use-websocket.ts:104-106 | Any pending timer may fire. It is then no longer pending, the ref keeps its value, and connect runs with its three outcomes: blocked, a new connecting socket, or the constructor error. Reconnecting need not be allowed. |
| WebSocketHook.WebSocketClient.Unmount | frontend/src/hooks/use-websocket.ts:228-246 | The unmount cleanup forbids reconnects, clears only the ref's timer, and lets an open or connecting socket start closing. The state flags are left as they are. |
| WebSocketHook.WebSocketClient.Disconnect | frontend/src/hooks/use-websocket.ts:163-187 | Disconnecting forbids reconnects and clears only the timer the ref names; every other pending timer stays. An open or connecting current socket starts closing, no socket stays current, and the hook reports itself disconnected. |
| WebSocketHook.WebSocketClient.SendMessage | frontend/src/hooks/use-websocket.ts:189-198 | A message is sent, and true returned, exactly when the current socket is open. |
| WebSocketHook.DisconnectThenClose | frontend/src/hooks/use-websocket.ts:94-99 | After disconnecting, a close event of any socket sets no timer and counts no attempt; no timer is pending when all were tracked by the ref. |
| WebSocketHook.LateCloseOfOldSocket | frontend/src/hooks/use-websocket.ts:61-118 | The server starts closing the open socket and a manual connect replaces it. When the old socket's close arrives after the new one opened, the hook reports itself disconnected, yet messages still go out on the new socket. |
| WebSocketHook.TimerOutlivesDisconnect | frontend/src/hooks/use-websocket.ts:104-106 | Two failed connections, the second from a manual connect, then a disconnect: the first timer still fires and creates a connecting socket although reconnecting is off. |
| WebSocketHook.ClearingTimerLeavesNoneAfterDisconnect | frontend/src/hooks/use-websocket.ts:163-169 | The same events with the intended close leave no timer pending after the disconnect. |
| AuthStore.Store.constructor | frontend/src/store/use-auth.ts:22-25 | The store starts signed out: no token, no user, the flag false, consistent. |
| AuthStore.Store.SetAuth | frontend/src/store/use-auth.ts:27-28 | Signed in with the token; the user is the given one or null; the flag agrees with the token. |
| AuthStore.Store.SetUser | frontend/src/store/use-auth.ts:30 | Only the user changes, so a consistent store stays consistent. |
| AuthStore.Store.Logout | frontend/src/store/use-auth.ts:32 | Logging out returns to the signed-out state. |
| AuthStore.Store.SetIsAuthenticated | frontend/src/store/use-auth.ts:34 | Only the flag changes; the store is consistent afterwards exactly when the new flag matches the token. |
| AuthStore.Store.Partialize | frontend/src/store/use-auth.ts:39-43 | All three state fields are persisted, each unchanged, and none of the actions. |
| AuthStore.FlagWithoutToken | frontend/src/store/use-auth.ts:32-34 | The store can be signed in without a token: a logout followed by setting the flag leaves it inconsistent. |
| RestApi.OrElse | frontend/src/hooks/use-rest-api.ts:37-40 | A present non-empty string wins; an absent or empty one gives the fallback. |
| RestApi.ErrorText | frontend/src/hooks/use-rest-api.ts:37-40 | The toast is the server's message, else the error's own message, else the fixed fallback; never empty. |
| RestApi.CallAPI | frontend/src/hooks/use-rest-api.ts:20-45 | A success resolves with the response and no effect; a 401 resolves with nothing after the session toast and the move to /login; any other error rejects with that error, after the caller's callback when given and the error toast unless switched off. |
| AlertDialog.TextOr | frontend/src/hooks/use-alert-dialog.ts:15-19 | A given text is kept, including an empty one; only an absent text takes the default. |
| AlertDialog.Dialog.constructor | frontend/src/hooks/use-alert-dialog.ts:12-22 | The dialog starts closed, with each text given or defaulted, and no callback called. |
| AlertDialog.Dialog.HandleOpenChange | frontend/src/hooks/use-alert-dialog.ts:24-32 | The flag follows the argument; onCancel is called exactly when closing and one was given. |
| AlertDialog.Dialog.HandleConfirm | frontend/src/hooks/use-alert-dialog.ts:34-39 | onConfirm is called when given; the dialog closes unless it rejects, and onCancel is never called. |
| AlertDialog.Dialog.OpenDialog | frontend/src/hooks/use-alert-dialog.ts:41-43 | The dialog opens and no callback is called. |
| AlertDialog.Dialog.CloseDialog | frontend/src/hooks/use-alert-dialog.ts:45-47 | The dialog closes and no callback is called. |
| AlertDialog.DismissVersusClose | frontend/src/hooks/use-alert-dialog.ts:24-47 | Dismissing calls onCancel (when given) while a programmatic close never does. |
| ApiClient.BaseUrl | frontend/src/api/rest/client.ts:170-174 | The base URL is the configured one, or http://localhost:8000 when unset or empty, followed by /api. |
| ApiClient.AuthorizeRequest | frontend/src/api/rest/client.ts:183-192 | A truthy token adds `Authorization: Bearer <token>` and keeps every other header; otherwise the headers pass unchanged. |
| ApiClient.AuthorizationIffToken | frontend/src/api/rest/client.ts:173-187 | On the client's own headers, Authorization is present exactly when the token is truthy. |
| ApiClient.Location.constructor | frontend/src/api/rest/client.ts:199 | The location holds the given path. |
| ApiClient.RejectResponseError | frontend/src/api/rest/client.ts:194-207 | A 401 away from /login signs out and moves to /login; in every case the error is passed on unchanged, and otherwise nothing changes. |
| ApiClient.ReceivedInput | frontend/src/api/rest/client.ts:306-313 | The backend receives an input for exactly the names the form has entries for. The final entry arrives as text, a number as its printed decimal. |
| ApiClient.PartInput | frontend/src/api/rest/client.ts:306-313 | A file entry arrives as an upload and a field entry as the text of its value. |
| ApiClient.LastEntryWins | frontend/src/api/rest/client.ts:306-313 | For every name, the input holds what the last entry of that name carried. |
| ApiClient.HeadParts | frontend/src/api/rest/client.ts:306-309 | The form starts with the image and the camera code, then the notes exactly when they are truthy. |
| ApiClient.CreateFormAsWritten | frontend/src/api/rest/client.ts:306-313 | The form as written: the head entries, then one `violation_details` entry with the details' JSON text. |
| ApiClient.AsWrittenRejected | frontend/src/api/rest/client.ts:303-323 | The backend's store validation refuses every form built that way, whatever the details. |
| ApiClient.DetailOf | frontend/src/api/rest/client.ts:310-313 | A detail becomes the fields violation_code, confidence_score and additional_info, with distinct names. |
| ApiClient.DetailsOf | frontend/src/api/rest/client.ts:310-313 | Each detail is converted in place, in order. |
| ApiClient.EntryParts | frontend/src/api/rest/client.ts:310-313 | The corrected entries of one detail are all bracketed field entries. |
| ApiClient.DetailParts | frontend/src/api/rest/client.ts:310-313 | The corrected entries of all details are all bracketed field entries. |
| ApiClient.FieldMapConcat | frontend/src/api/rest/client.ts:306-313 | Appending field entries to a form merges their fields over the earlier ones. |
| ApiClient.EntryPartsFields | frontend/src/api/rest/client.ts:310-313 | One detail's corrected entries carry exactly the fields the detection service sends for it. |
| ApiClient.DetailPartsFields | frontend/src/api/rest/client.ts:310-313 | All details' corrected entries carry exactly the fields the detection service sends for them. |
| ApiClient.CorrectedTail | frontend/src/api/rest/client.ts:310-313 | No corrected detail entry is a plain `violation_details` text entry. |
| ApiClient.CreateFormCorrected | frontend/src/api/rest/client.ts:303-323 | The corrected form keeps the head entries and sends the details in bracket notation, field for field as the detection service's client does. |
| ApiClient.CorrectedCarriesCodes | frontend/src/api/rest/client.ts:310-313 | In the corrected form every detail's violation code is present under its own bracketed name. |
| Breadcrumb.Segments | frontend/src/components/app-breadcrumb.tsx:20 | Every segment is non-empty and contains no '/'. |
| Breadcrumb.CapitalizeFirstLetter | frontend/src/components/app-breadcrumb.tsx:70-72 | The label has the segment's length, its first character upper-cased, and each later '-' turned into a space. |
| Breadcrumb.CapitalizedShape | frontend/src/components/app-breadcrumb.tsx:70-72 | No '-' is left after the first character, and a lower-case first letter becomes upper-case. |
| Breadcrumb.Label | frontend/src/components/app-breadcrumb.tsx:12-36 | A configured segment shows its fixed label; any other shows its capitalised form. |
| Breadcrumb.Build | frontend/src/components/app-breadcrumb.tsx:20-40 | The root shows Dashboard alone; otherwise there is one item per segment, linking to the path up to it, with its label, and only the last marked as the current page. |
| Breadcrumb.SplitJoin | frontend/src/components/app-breadcrumb.tsx:20-35 | Splitting the joined segments gives the segments back. |
| Breadcrumb.SegmentsOfPath | frontend/src/components/app-breadcrumb.tsx:20-35 | A path built as "/" + segments joined by '/' splits back into those segments. |
| Breadcrumb.ItemPathPrefix | frontend/src/components/app-breadcrumb.tsx:34-40 | Following item i's link lands on a page whose trail is the first i + 1 segments. |
| NavUser.FirstUnits | frontend/src/components/nav-user.tsx:65-67 | One code unit per non-empty word, the first unit of that word, in order; empty words add nothing. |
| NavUser.LeadUnit | frontend/src/components/nav-user.tsx:66 | `n[0]` is one UTF-16 code unit: the first character inside the Basic Multilingual Plane, and a high surrogate beyond it. |
| NavUser.UpperUnit | frontend/src/components/nav-user.tsx:68 | Upper-casing a code unit agrees with UpperChar on characters and leaves a lone surrogate as it is. |
| NavUser.Initials | frontend/src/components/nav-user.tsx:63-69 | The initials are the upper-cased first UTF-16 code units of the first two non-empty words, or fewer when the name has fewer words. |
| NavUser.InitialsOfTwoWords | frontend/src/components/nav-user.tsx:63-69 | A name of two words gives the upper-cased first units of both, however many spaces separate them; words that start inside the Basic Multilingual Plane give their two capitals. |
| NavUser.AstralInitialIsHalfPair | frontend/src/components/nav-user.tsx:63-69 | "\U{1F600} Bob" gives the lone high surrogate 0xD83D followed by 'B'. |
| NavUser.SplitSpaces | frontend/src/components/nav-user.tsx:65 | Splitting at a run of n + 1 spaces leaves n empty words between the two words. |
| NavUser.NonEmptyOfGap | frontend/src/components/nav-user.tsx:65-67 | The empty words of a gap drop out, leaving the two words. |
| NavUser.NonEmptyOfBlanks | frontend/src/components/nav-user.tsx:65-67 | A run of empty words before a word drops out. |
| NavUser.Menu.constructor | frontend/src/components/nav-user.tsx:27-28 | No logout or profile request is under way or has been sent. |
| NavUser.Menu.HandleLogout | frontend/src/components/nav-user.tsx:50-61 | A click while a logout runs is ignored; otherwise the server is asked once and, failing or not, the store is signed out and the router goes to /login. |
| NavUser.Menu.StartProfileFetch | frontend/src/components/nav-user.tsx:30-34 | The profile is requested exactly when the token is truthy and no request is outstanding. |
| NavUser.Menu.FinishProfileFetch | frontend/src/components/nav-user.tsx:35-45 | A fetched profile is stored as the user; a failure signs out and goes to /login; the in-progress mark is cleared either way. |
| NavUser.DoubleClickLogout | frontend/src/components/nav-user.tsx:50-52 | Two clicks send one logout request. |
| ViolationHistory.StatusVariant | frontend/src/features/ViolationHistoryPage/index.tsx:518-529 | pending, reviewed and resolved get warning, info and success, each exactly; any other status gets default. |
| ViolationHistory.DetailVariant | frontend/src/features/ViolationHistoryPage/index.tsx:350-357 | confirmed is success and dismissed default, exactly; every other detail status is a warning. |
| ViolationHistory.ReviewOfferedIffWarning | frontend/src/features/ViolationHistoryPage/index.tsx:350-386 | Confirm and Dismiss are offered exactly when the detail's badge is a warning. |
| ViolationHistory.TypeName | frontend/src/features/ViolationHistoryPage/index.tsx:539 | A detail shows its type's name when truthy, else "Unknown"; never empty. |
| ViolationHistory.TypeNames | frontend/src/features/ViolationHistoryPage/index.tsx:538-539 | One name per detail, in order. |
| ViolationHistory.ViolationTypes | frontend/src/features/ViolationHistoryPage/index.tsx:531-541 | No details gives "Unknown"; otherwise the type names in detail order joined by ", ". |
| ViolationHistory.OneEntryPerDetail | frontend/src/features/ViolationHistoryPage/index.tsx:538-540 | When no name holds a comma, the summary splits back into one entry per detail, the first being the first detail's. |
| ViolationHistory.UpdateDetailStatus | frontend/src/features/ViolationHistoryPage/index.tsx:253-262 | The dialog's local update: the detail with that id takes the new status; every detail keeps its place, id and type, and the others are untouched; unloaded details stay unloaded. |
| ViolationHistory.UpdateDetailStatusStable | frontend/src/features/ViolationHistoryPage/index.tsx:253-262 | Repeating an update changes nothing more, and an update for an unknown id changes nothing. |
| ViolationHistory.HandleUpdateDetailStatus | frontend/src/features/ViolationHistoryPage/index.tsx:243-268 | Unless callAPI rejects, the details take the new status and the success toast follows callAPI's effects. On a rejection the details stay and the failure toast shows. |
| ViolationHistory.ExpiredSessionStillUpdates | frontend/src/features/ViolationHistoryPage/index.tsx:247-262 | On a 401 the dialog still applies the new status and shows the success toast, after the session-expired toast and the redirect to login. |
| ViolationHistory.HistoryPage.constructor | frontend/src/features/ViolationHistoryPage/index.tsx:498-516 | Page and page size come from the query string or default to 1 and 12; no filter; one page. |
| ViolationHistory.HistoryPage.Params | frontend/src/features/ViolationHistoryPage/index.tsx:547-551 | The list request carries page and page size, and the status exactly when the filter is truthy. |
| ViolationHistory.HistoryPage.ChooseStatus | frontend/src/features/ViolationHistoryPage/index.tsx:592-597 | "all" clears the filter, any other value sets it, and the page goes back to 1. |
| ViolationHistory.HistoryPage.ChoosePerPage | frontend/src/features/ViolationHistoryPage/index.tsx:754-756 | A new page size goes back to page 1 and keeps the filter. |
| ViolationHistory.HistoryPage.Previous | frontend/src/features/ViolationHistoryPage/index.tsx:780-781 | Previous moves one page back unless the page is at most 1. |
| ViolationHistory.HistoryPage.Next | frontend/src/features/ViolationHistoryPage/index.tsx:790-791 | Next moves one page on unless the page is the last. |
| ViolationHistory.HistoryPage.Loaded | frontend/src/features/ViolationHistoryPage/index.tsx:552-553 | A loaded list stores the server's last page and nothing else. |
| ViolationHistory.PagingStaysInRange | frontend/src/features/ViolationHistoryPage/index.tsx:780-791 | Paging with the buttons keeps the page within 1 .. totalPages. |
| HomePage.FirstTypeName | frontend/src/features/HomePage/index.tsx:20-29 | The first detail's type name, or "Unknown" without a first detail; never empty. |
| HomePage.LastViolation | frontend/src/features/HomePage/index.tsx:14-33 | The card is absent for an empty list or a first violation without camera; otherwise it shows that violation's id, camera code, first type, image and time. |
| HomePage.OnlyFirstCounts | frontend/src/features/HomePage/index.tsx:19-24 | Only the most recent violation matters, even when it has no camera and a later one has. |
| HomePage.CameraPanel | frontend/src/features/HomePage/index.tsx:41-51 | The feed is shown exactly when the polled camera status is true. |
| HomePage.StatusLabel | frontend/src/features/HomePage/index.tsx:80 | "Camera Online" exactly when the status is true, "Camera Offline" otherwise. |
| HomePage.PanelMatchesLabel | frontend/src/features/HomePage/index.tsx:41-80 | The feed is shown exactly when the label says online. |
| UserForm.AcceptedValues | frontend/src/features/UserManagementPage/components/UserFormModal.tsx:33-71 | Accepted values have a name of 1-255 UTF-16 code units, a valid e-mail, and a password that is absent, empty or of 6-255 code units; without an id the password is not empty. |
| UserForm.EditAcceptsEmptyPassword | frontend/src/features/UserManagementPage/components/UserFormModal.tsx:41-66 | With an id, an absent or empty password is accepted. |
| UserForm.ShortPasswordRefused | frontend/src/features/UserManagementPage/components/UserFormModal.tsx:41-49 | A password of 1 to 5 UTF-16 code units is refused in either mode. |
| UserForm.AstralPasswordLongEnough | frontend/src/features/UserManagementPage/components/UserFormModal.tsx:41-49 | Three characters beyond the Basic Multilingual Plane are six code units, long enough for the password rules. |
| UserForm.SubmitData | frontend/src/features/UserManagementPage/components/UserFormModal.tsx:124-135 | The payload carries the name and e-mail, and the password exactly when it is not empty. |
| UserForm.RequestFor | frontend/src/features/UserManagementPage/components/UserFormModal.tsx:137-146 | An update of that id is sent exactly in edit mode with a truthy id; otherwise a create; both carry the payload. |
| UserForm.Modal.constructor | frontend/src/features/UserManagementPage/components/UserFormModal.tsx:92-100 | The form starts from empty values, which are also its defaults; nothing sent. |
| UserForm.Modal.Load | frontend/src/features/UserManagementPage/components/UserFormModal.tsx:102-118 | Editing a user loads them with an empty password; create mode loads empty values; edit without a user leaves the form alone. |
| UserForm.Modal.OnSubmit | frontend/src/features/UserManagementPage/components/UserFormModal.tsx:120-154 | The request goes out; unless callAPI rejects, the form resets, the dialog closes and the page is told once; on a rejection nothing else changes. |
| UserForm.EditWithoutPassword | frontend/src/features/UserManagementPage/components/UserFormModal.tsx:102-146 | Saving an edited user without touching the password sends an update with no password. |
| UserManagement.RowNumber | frontend/src/features/UserManagementPage/index.tsx:62-67 | Row numbers start at 1. |
| UserManagement.RowNumbersOfPage | frontend/src/features/UserManagementPage/index.tsx:63-66 | The rows of page p of a full table are numbered p × size + 1 .. (p + 1) × size. |
| UserManagement.RowNumbersDistinct | frontend/src/features/UserManagementPage/index.tsx:63-66 | No two rows, on the same page or on different pages, share a number. |
| UserManagement.UsersPage.constructor | frontend/src/features/UserManagementPage/index.tsx:46-51 | Page, page size and filters come from the query string or default to 1, 10 and empty; nothing is selected or sent. |
| UserManagement.UsersPage.Params | frontend/src/features/UserManagementPage/index.tsx:187-197 | The list request carries page and page size, and each filter exactly when it is not empty. |
| UserManagement.UsersPage.ApplyFilters | frontend/src/features/UserManagementPage/index.tsx:168-174 | The debounced filter sets both filters from the inputs and goes back to page 1. |
| UserManagement.UsersPage.AskDelete | frontend/src/features/UserManagementPage/index.tsx:128-131 | The user is selected and the delete dialog opens. |
| UserManagement.UsersPage.FetchUsers | frontend/src/features/UserManagementPage/index.tsx:183-208 | One list request with the current parameters; the error is cleared, or set when the request fails. |
| UserManagement.UsersPage.HandleDeleteUser | frontend/src/features/UserManagementPage/index.tsx:210-225 | Nothing without a selected user; a failed delete sets the error and keeps the dialog; a successful one refetches, closes the dialog and clears the selection. |
| LoginPage.LoginIssues | frontend/src/features/LoginPage/index.tsx:18-42 | The schema reports no issue exactly when the e-mail is valid and the password has at least 6 UTF-16 code units; each issue names one field. |
| LoginPage.MessagesFor | frontend/src/features/LoginPage/index.tsx:44-51 | A field collects at most one message per issue. |
| LoginPage.GroupIssues | frontend/src/features/LoginPage/index.tsx:44-51 | Exactly the fields with at least one issue get an entry, holding their issues' messages in issue order. |
| LoginPage.NoMessages | frontend/src/features/LoginPage/index.tsx:44-51 | A field no issue is filed under collects no message. |
| LoginPage.FirstMessageShown | frontend/src/features/LoginPage/index.tsx:44-51 | The message a field displays is that of the first issue filed under it. |
| LoginPage.LoginForm.constructor | frontend/src/features/LoginPage/index.tsx:27-33 | No errors, not loading, nothing sent, shown or navigated. |
| LoginPage.LoginForm.OnSubmit | frontend/src/features/LoginPage/index.tsx:37-73 | Invalid values only set the grouped errors and send nothing; valid ones clear the errors and send the request; success stores token and user and goes to "/"; failure toasts the server's message or "Invalid email or password"; loading ends either way. |
| LoginPage.ShortPasswordStaysLocal | frontend/src/features/LoginPage/index.tsx:20-54 | A five-character password sends nothing and shows the length message under the password field. |
| Common.Upper | frontend/src/components/nav-user.tsx:68 | Upper-casing keeps the length and maps each character through UpperChar. |
| Common.Utf16Length | frontend/src/features/LoginPage/index.tsx:20 | The JavaScript length of text lies between its character count and twice that, and equals the count exactly when no character lies beyond the Basic Multilingual Plane. |
| Common.Split | frontend/src/components/app-breadcrumb.tsx:20 | A split gives at least one piece and no piece holds the separator. |
| Common.JoinSplit | backend/app/Exceptions/Handler.php:74 | Joining the pieces of a split with the same separator gives back the text. |
| Common.NonEmptyKeeps | frontend/src/components/app-breadcrumb.tsx:20 | Filtering out empty pieces keeps a list that has none. |
| Common.LastPartAfter | yolo-service/modules/backend_client.py:80 | The part after the last separator of `prefix + sep + last` is `last` when it has no separator. |
| Common.DecimalRoundTrip | yolo-service/modules/hls_manager.py:44 | The digits of every printed natural number read back as that number. |
| Common.PyIntOfDecimal | yolo-service/modules/ffmpeg_ops.py:247 | Python's int() reads back every printed natural number. |
| Common.PyIntOfGroups | yolo-service/modules/ffmpeg_ops.py:247 | Digits grouped by single underscores read as the digits without them. |
| Common.PyIntIgnoresUnderscore | yolo-service/modules/ffmpeg_ops.py:247 | One underscore between two digit runs does not change what int() reads. |
| PhpNumeric.Intval | backend/app/Http/Controllers/UserController.php:23 | The integer reading of per_page always lies in the 64-bit range, and is 0 when the text has no numeric prefix. |
| PhpNumeric.Truncate | backend/app/Http/Controllers/ViolationController.php:26 | Rounding toward zero keeps the sign and lands within one of the value. |
| PhpNumeric.PrefixValueToEnd | backend/app/Http/Controllers/UserController.php:23 | When the whole rest of the text is numeric, the longest numeric prefix is all of it. |
| PhpNumeric.IntvalOfNumeric | backend/app/Http/Controllers/UserController.php:23 | On numeric text, intval reads its value rounded toward zero, capped at the 64-bit bounds. |
| PhpNumeric.IntvalOfInt | backend/app/Http/Controllers/ViolationController.php:26 | intval reads back every 64-bit integer as the clients print it. |
| PhpNumeric.IntvalCapped | backend/app/Http/Controllers/UserController.php:23 | A printed natural number beyond the 64-bit range reads as the largest 64-bit integer. |
| PhpNumeric.IntvalReadsExponent | backend/app/Http/Controllers/UserController.php:23 | An exponent counts: "1e2" reads as 100. |
| PhpNumeric.IntvalStopsAtLetters | backend/app/Http/Controllers/UserController.php:23 | Reading stops where the number stops: " 12abc" reads as 12, and "abc" as 0. |

## Left out

- Concurrency and scheduling are not modelled. This covers the health-check cadence, the submitter's thread and locks, the asyncio event loop and queue, the FFmpeg log thread and React's batching of state updates. Each operation is one sequential step; a lock is a method boundary.
- Process and device I/O are inputs. This covers ffmpeg and ffprobe runs, camera capture, JPEG encoding, file reads and deletions, HTTP transport and the uvicorn server. The model takes their results as parameters: the bytes read, the probe output, the HTTP status, whether a file exists, whether a request fails.
- YOLO inference is left out. Detections are an input list of class names.
- Time is a whole number of seconds, given as a parameter. Confidence scores and frame rates are `real`; floating-point rounding is not modelled.
- The source of the `camera:health-check` command is not part of this model. `Cameras.CameraRegistry.HealthCheck` follows the behaviour its integration test fixes. Any 2xx reply counts as healthy, and a camera in maintenance is not touched; the test covers neither case.
- Framework rule engines are abstract. Laravel's `exists` and `unique` checks are sets of known codes, the `image` rule is a flag, and zod's and Laravel's e-mail checks are a boolean parameter. Eloquent pagination, route model binding, Sanctum token hashing and bcrypt are not modelled.
- PHP's parsing of nested bracket fields is not modelled. `ApiClient.ReceivedInput` covers plain field names only; the bracketed entries are compared with the detection service's fields instead.
- ApiClient.CreateFormAsWritten: `JSON.stringify` is not computed; the JSON text is a parameter `json`. No frontend code calls `violationsApi.create`.
- ApiClient.Location stands for `window.location`. A page reload after the redirect is not modelled.
- Common.UpperChar covers ASCII letters only; Unicode case mapping is not modelled.
- Common.PyInt reads ASCII digits only. Python's int() also accepts the other Unicode decimal digits.
- BackendApi.WireText prints a number as a finite positional decimal. The shortest round-trip digits and exponent forms (such as `1e-05`) of Python's `str(float)` and of JavaScript's number printing are not modelled.
- PhpNumeric.NumericText reads decimal text with an optional sign, point and exponent, between PHP whitespace, as is_numeric does. Its value is exact rather than a rounded float, and text too long for a float is not treated specially.
- PhpNumeric.Intval reads the numeric prefix by its exact value and then truncates. PHP goes through a float, so a prefix with more than about 15 significant digits may round differently, and an overflow to infinity is not modelled.
- FormRequests.Size compares a JSON number by its value even without the `numeric` rule, where Laravel measures the length of its text. No rule set here puts a size rule on a number without `numeric`.
- Users.ListUsers folds the case of ASCII letters only, as SQLite's LIKE does. The case and accent folding of a MySQL collation, PostgreSQL's case-sensitive LIKE and MySQL's default backslash escape are not modelled.
- Cameras.Classify treats a camera without a service URL as unreachable. No source line fixes this case, since the command's source is not part of this model.
- Breadcrumb.Label ignores JavaScript's inherited object keys such as `constructor`, which `BREADCRUMB_CONFIG[segment]` would also find.
- LoginPage.LoginIssues fixes the order of zod's issues as email first, then password; zod's own issue order for other schemas is not modelled.
- NavUser.Menu.HandleLogout never clears `isLoggingOut`, as in the source: the component leaves the page.
- UserForm.Modal.OnSubmit treats a 401 as success, because `callAPI` resolves on a 401. The dialog then closes and the page is told, as the code does.
- UserManagement.UsersPage.HandleDeleteUser closes the dialog whenever the delete succeeds, even when the refetch fails. `fetchUsers` catches its own errors, so the "both succeed" reading does not match the code.
- Hls.HlsManager.CleanupOldSegments does not model a partial deletion when a removal raises mid-loop. The model deletes the whole plan or, on an unreadable name, nothing.
- StatusServer.SystemStatus.StatusDict reports uptime in whole seconds, not as a float.
- StatusServer.StreamSession: a poll sees at most one newly put frame. Several puts between two polls, of which the queue keeps the first, are not modelled. The session starts after the lifespan start-up has created the loop and the queue.
- FfmpegOps.FFmpegStreamer: `stop()` acts only on the external process (terminate, wait, kill) and is not modelled. As in the source, the process stays set after it.
- WebSocketHook.WebSocketClient leaves out the callbacks passed in by the caller, the toasts, `sendJsonMessage` (a `JSON.stringify` in front of `sendMessage`) and the auto-connect effect's 100 ms delay.
- The polling hooks, the thin CRUD controllers, the UI-only components and the duplicate axios setups are not modelled: they have no logic of their own.

## Findings

| source | as written | input that shows it | evidently intended | confidence | as-written member | corrected member |
|---|---|---|---|---|---|---|
| frontend/src/hooks/use-websocket.ts:104-106 | `onclose` overwrites `reconnectTimeoutRef` with a new timer without clearing the one it held, and `disconnect` clears only the one it holds. | Open a socket; it closes with 1006; call `connect()` by hand; the new socket closes with 1006; call `disconnect()`. The first timer still fires and `connect()` creates a socket after the disconnect. | A disconnect cancels every pending reconnect, for example by clearing the ref's timer before setting a new one. | high (not executed) | WebSocketHook.TimerOutlivesDisconnect | WebSocketHook.ClearingTimerLeavesNoneAfterDisconnect |
| frontend/src/api/rest/client.ts:310-313 | `violationsApi.create` appends all details as one `violation_details` entry holding their JSON text. | Any upload, e.g. one detail with code NO_APRON: the backend receives the text `[{"violation_code":"NO_APRON"}]`, which fails the `array` rule of ViolationStoreRequest. | Send the details in bracket notation, `violation_details[i][field]`, as the detection service's client does. | high (not executed) | ApiClient.AsWrittenRejected | ApiClient.CreateFormCorrected |
