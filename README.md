# Health-risk prediction web application, modelled in Dafny

This project models the core of a health-risk prediction web application
(repository SHP--UNISA): a FastAPI server and a React client.

On the server side, people register and log in.
- A login issues a JWT cookie that carries a token version, so a logout or a later login revokes every earlier token.
- A standard user submits health measurements. The server stores them and runs three trained risk models (cardiovascular disease, stroke, diabetes). It stores the three chances and stores advice from a language model, or from a rule-based fallback.
- A merchant uploads a CSV file of measurements for other accounts.
- An administrator lists accounts, changes their roles, validates merchant accounts and deletes accounts. A deletion cascades through every table that refers to the account.
- Stored text can be protected with an AES-256-GCM envelope, `v1:gcm:<iv>:<tag>:<ciphertext>`, each field in Base64.

On the client side, the model covers:
- the route guards and the landing redirect;
- the registration, password and report forms, with their validation and alerts;
- the settings page and the administrator's user table;
- the merchant's report history and the report download button;
- the analytics page, which turns a user's risk history into chart series.

## How the model is built

The model follows the code's own structure, one module per source file.
- **Database.** The server's tables are one sequence per table. They sit in a `Tables.Database` object, and the routes modify it in place.
  - A query's `.first()` is the first matching row in table order.
  - Auto-increment keys come from a counter.
  - Every route states its status code or its new tables, and the lemmas beside it prove what the route promises: the foreign keys stay valid, a deletion removes exactly what it should, a token is revoked.
- **Client components.** Each React component with state is a class whose fields are its `useState` variables, and each handler is a method. A fetch is not performed: its outcome is an argument of the handler.
- **Pure code.** Pure computations are functions, such as the analytics derivation, the envelope format and the recommendation rules. The derivation's loops (the month grouping, the `maxVal` loop, the series pushes) are methods proved against those functions.

Some things are abstracted:
- **Libraries.** Argon2 hashing is symbolic: a digest verifies exactly the password it was made from. AES-GCM is any cipher for which decryption undoes encryption under the same key and IV.
- **Library outcomes as inputs.** These come in as arguments: JWT decoding (a cookie is missing, undecodable, or decoded into claims), the email syntax check, phone-number parsing, `token_urlsafe`, Python's `int`/`float` text conversions, the three trained models and the language model's reply.
- **Dates.** A JavaScript `Date` comes in already split into its local calendar fields and its time value.
- **Base64 and UTF-8.** Base64 (section 4 of RFC 4648) and UTF-8 (section 3 of RFC 3629) are written out, so the envelope's round trip is proved down to the bytes.

A few details of the code that the model keeps:
- The day span that selects monthly aggregation is fractional (`(maxDate - minDate) / 86400000`, client/src/routes/HealthAnalytics.js:143), not a count of whole days. `HealthAnalytics.DaysBetween` is a real number.
- A metric value is coerced with `Number(x) || 0`. This maps NaN (and 0) to 0 but keeps an infinite value. The model has no infinite values (see Left out).
- The report form's inputs are `type="text"` fields (client/src/components/GenerateReportForm.js:226-261). Each holds its text, the number JavaScript reads from it and the number the server reads from it, so text the two read differently is covered.
- The password field counts UTF-16 code units, as JavaScript's `.length` and `substring` do, while the server counts characters.

## Model

| member | source | states |
|---|---|---|
| Tables.Database.constructor | server/alembic/versions/8184ee23453b_insert_dummy_data.py:24-35 | A new database holds exactly the three seeded roles (standard_user, merchant, admin) and no other rows |
| Tables.Database.NewId | server/models/dbmodels.py:24 | The key handed out is the counter's value, the counter advances by one, and no table changes |
| Tables.UserByEmail | server/routers/authentication.py:338-340 | The first account with that email, or none exactly when no account has it |
| Tables.UserById | server/routers/users.py:80-87 | The first account with that id, or none exactly when no account has it |
| Tables.RoleById | server/routers/admin.py:71-75 | The first role with that id, or none exactly when no role has it |
| Tables.HealthById | server/routers/users.py:217-224 | The first HealthData row with that id, or none exactly when there is none |
| Tables.PredictionFor | server/routers/users.py:225-226 | The first Prediction row of that HealthData id, or none exactly when there is none |
| Tables.RoleOfUser | server/routers/authentication.py:343-350 | The role reached through the user's first mapping whose role exists, or none when no mapping leads to a role |
| Authentication.IsPasswordValid | server/routers/authentication.py:374-378 | The password rule: from 15 to 64 characters, counted as Python counts them (code points) |
| Authentication.IsEmailValid | server/routers/authentication.py:381-389 | The email rule: non-empty, accepted by the syntax check, and shorter than 255 characters |
| Authentication.FormatPhoneNumber | server/routers/authentication.py:392-395 | No hyphen, space or bracket remains, and the result is no longer than the input |
| Authentication.NoSeparatorsKept | server/routers/authentication.py:392-395 | A number without separators is unchanged by formatting |
| Authentication.FormatPhoneIdempotent | server/routers/authentication.py:392-395 | Formatting a formatted number changes nothing |
| Authentication.FormatPhoneKeepsOthers | server/routers/authentication.py:392-395 | A character other than a separator is in the formatted number exactly when it is in the input |
| Authentication.IsFormattedPhoneValid | server/routers/authentication.py:398-410 | The phone rule as its comment states it: empty, or a leading character followed only by digits, and accepted by the parser |
| Authentication.PhoneLettersAccepted | server/routers/authentication.py:398-410 | "+1800FLOWERS" passes the phone rule as written and fails the intended digits-only rule |
| Authentication.IsNameValid | server/routers/authentication.py:413-415 | The name rule as intended: at most 255 characters |
| Authentication.LongNameAccepted | server/routers/authentication.py:413-415 | A 256-character name passes the name rule as written and fails the intended length limit |
| Authentication.IsRoleValid | server/routers/authentication.py:419-421 | An account type is accepted exactly when it is a key of ACCOUNT_TYPE |
| Authentication.RegistrationNeverAdmin | server/routers/authentication.py:33-36 | The accepted account types, standard user and merchant, never map to the administrator's role id |
| Authentication.PhoneAccepted | server/routers/authentication.py:80-88 | The phone check of register: the entry as typed takes the empty shortcut only when it is empty; otherwise the parser must accept it and, once separators are removed, the intended digits-only rule must hold |
| Authentication.SeparatorsOnlyPhoneRefused | server/routers/authentication.py:80-88 | A non-empty entry made only of separators, such as "()", is refused by the phone check |
| Authentication.RegistrationValid | server/routers/authentication.py:82-88 | Registration input is valid exactly when the email, password, name, phone and account-type checks all pass |
| Authentication.NewAccount | server/routers/authentication.py:106-118 | The account is validated exactly unless it is a merchant's, starts at token version 0, and its digest verifies the password |
| Authentication.Register | server/routers/authentication.py:76-129 | Invalid input, including a non-empty phone entry made only of separators, gives 422 and changes nothing. Valid input always answers "User successfully created.": a taken email changes nothing, otherwise exactly one account, one role mapping and one validation token are appended |
| Authentication.RegistrationConsistent | server/routers/authentication.py:106-129 | A registration keeps every foreign key valid when its role exists |
| Authentication.BumpTokenVersion | server/routers/authentication.py:227-237 | The first account with the email gets its version raised by one; every other row and table stays |
| Authentication.BumpedVersion | server/routers/authentication.py:227-237 | After the bump, the account found by the email has the next version and is otherwise unchanged |
| Authentication.CurrentUserAsWritten | server/routers/authentication.py:289-335 | The session check as written succeeds exactly when the corrected check does, and then with the same answer; a failure is 500 exactly for a current-address token of a deleted account or, with the current version, of an account without a role, and 401 "Could not validate credentials" otherwise |
| Authentication.CurrentUser | server/routers/authentication.py:289-335 | Accepts exactly a decodable cookie issued to the requesting address, for an existing account, with the account's current version and a role; every other case is 401 |
| Authentication.DeletedAccountIsServerError | server/routers/authentication.py:319-324 | A valid token of a deleted account gives 500 as written and 401 as intended |
| Authentication.RolelessAccountIsServerError | server/routers/authentication.py:343-350 | A current token of an account without a role gives 500 as written and 401 as intended |
| Authentication.EarlierTokenRejected | server/routers/authentication.py:320-321 | After a version bump, every token issued with an earlier version is rejected with 401 |
| Authentication.Login | server/routers/authentication.py:209-248 | Bad input or a wrong password gives 401 and changes nothing. Otherwise the account's version is bumped and the token carries the email, the requesting address and the new version |
| Authentication.FreshTokenAccepted | server/routers/authentication.py:209-248 | A token just issued by login is accepted from its own address while the account has a role |
| Authentication.InvalidateAccessToken | server/routers/authentication.py:367-371 | The account's version goes up by one; a missing account is 500 and changes nothing |
| Authentication.Logout | server/routers/authentication.py:354-364 | An authenticated logout revokes the caller's token (its version is bumped); an unauthenticated request is 401 with no change |
| Authentication.ChangePassword | server/routers/authentication.py:425-447 | Succeeds exactly for an authenticated request whose current password verifies and whose confirmation matches, and then only that account's digest changes, to one of the new password; otherwise nothing changes, with a credentials error when unauthenticated and an invalid-password error else |
| Users.HealthIdsOf | server/routers/users.py:94-98 | The ids listed are exactly those of the user's HealthData rows |
| Users.Cascade | server/routers/users.py:94-121 | The tables after the six DELETE statements of _delete_user_data, in their order (properties in StageMembers, CascadeRemovesUser, CascadeKeepsOthers, CascadeConsistent) |
| Users.DeletionReport | server/routers/users.py:94-121 | The deletion report: the three health counts when the account has health data, then the token and role-mapping counts and users_deleted = 1 (properties in HealthReportCounts and AccountReportCounts) |
| Users.DeleteHealthRows | server/routers/users.py:94-112 | With health data, the user's recommendations, predictions and HealthData rows are deleted and their counts reported; without, nothing changes |
| Users.DeleteUserData | server/routers/users.py:75-128 | An unknown account gives 500 "Failed to delete user data: 404: User not found." and no change; otherwise the tables become the cascade's last stage and the report counts each step |
| Users.StageShape | server/routers/users.py:94-121 | After k steps, each table has been filtered by its own step exactly when that step has run |
| Users.StageMembers | server/routers/users.py:94-121 | The rows after k steps are those of the original that no step run so far deletes |
| Users.StageConsistent | server/routers/users.py:94-121 | Every intermediate stage of the cascade keeps every foreign key valid |
| Users.CascadeConsistent | server/routers/users.py:94-121 | The whole cascade keeps every foreign key valid |
| Users.CascadeRemovesUser | server/routers/users.py:94-121 | No row of the account remains: no account, token, role mapping, HealthData row, or prediction or recommendation on its records |
| Users.CascadeKeepsOthers | server/routers/users.py:94-121 | The roles table and every row of another account stay |
| Users.HasHealthData | server/routers/users.py:96-98 | The account has HealthData rows exactly when their id list is non-empty |
| Users.HealthReportCounts | server/routers/users.py:99-112 | The report holds the three health counts exactly when the account had health data, each the number of rows its table lost |
| Users.AccountReportCounts | server/routers/users.py:114-121 | The report ends with the token and role-mapping counts, each the number of rows lost, and users_deleted = 1 |
| Users.DeleteUser | server/routers/users.py:132-151 | An invalid session or a blank email gives 401; otherwise the session's account is deleted as by DeleteUserData |
| Users.GetHealthAnalytics | server/routers/users.py:157-209 | A valid session is required (401 otherwise); the answer is the session user's prediction history |
| Users.HealthAnalytics | server/routers/users.py:172-209 | The user's prediction history: one entry per prediction on the user's records, ordered by creation time (properties in AnalyticsAscending and AnalyticsOnePerPrediction) |
| Users.AnalyticsAscending | server/routers/users.py:172-187 | The history is in ascending order of prediction time |
| Users.AnalyticsOnePerPrediction | server/routers/users.py:172-209 | One entry per prediction of the user, with its chances (NULL read as 0.0), and each entry comes from one |
| Users.Bit | server/routers/users.py:240-250 | A yes/no column becomes 1 exactly when it is set, otherwise 0 |
| Users.LatestRecommendation | server/routers/users.py:227-228 | The recommendation chosen is one of the record's, with the latest creation time; none exactly when the record has none |
| Users.GetReportData | server/routers/users.py:215-268 | An unknown record gives 404. Otherwise every number column (age, weight, height, glucose, both pressures, smoking, marital and working status) reads as its stored value, or 0 for NULL; each yes/no column (gender, cholesterol, hypertension, heart disease, diabetes, alcohol) is 1 exactly when it is set, else 0; the three chances are the prediction's values (0 for NULL) when the record has a prediction and 0 without; the advice is the latest recommendation's, or all None without one |
| Users.DeleteReportData | server/routers/users.py:272-296 | An unknown record gives 404 and no change; otherwise the record's recommendations, predictions and the record itself are deleted |
| Users.ReportRemoved | server/routers/users.py:272-296 | Nothing with the record's id remains, every other health record, prediction and recommendation stays, and the account tables are unchanged |
| Users.ReportRemovalConsistent | server/routers/users.py:272-296 | Deleting a report keeps every foreign key valid |
| Admin.Joined | server/routers/admin.py:34-42 | The outer join of the accounts with their role mappings and roles, account by account (properties in RowsOfMembers and JoinedMembers) |
| Admin.RowsOf | server/routers/admin.py:34-57 | Every account has at least one joined row |
| Admin.RowsOfMembers | server/routers/admin.py:34-57 | An account's joined rows are exactly its pairs with the roles it joins to |
| Admin.JoinedMembers | server/routers/admin.py:34-57 | The outer join holds exactly the pairs of an account of the table with a role it joins to |
| Admin.GetUsers | server/routers/admin.py:33-57 | The listing of get_users: one entry per joined row of a validated account (properties in GetUsersValidatedOnly) |
| Admin.GetUsersValidatedOnly | server/routers/admin.py:38-42 | The listing holds only validated accounts, and every validated account at least once |
| Admin.GetInvalidMerchantAccounts | server/routers/admin.py:193-213 | The pending-merchant listing: one entry per joined row of an unvalidated account whose role is "merchant" (properties in PendingMerchantsOnly and PendingMerchantsListed) |
| Admin.PendingMerchantsOnly | server/routers/admin.py:193-213 | The pending listing holds only unvalidated accounts joined to a role named "merchant" |
| Admin.PendingMerchantsListed | server/routers/admin.py:193-213 | Every unvalidated account mapped to a role named "merchant" is in the pending listing |
| Admin.UpdateUserRole | server/routers/admin.py:60-93 | An unknown email or role id gives 404 and no change; otherwise the account's mapping is reassigned and the answer names the new role |
| Admin.ReassignedShape | server/routers/admin.py:78-87 | Only the account's first mapping changes; a mapping is added exactly when it had none; every other mapping stays |
| Admin.RoleReassigned | server/routers/admin.py:78-87 | After the change, the account's role, as every later request sees it, is the new one |
| Admin.ReassignedConsistent | server/routers/admin.py:78-87 | The change keeps every foreign key valid when the account and the role exist |
| Admin.DeleteUserDataByEmail | server/routers/admin.py:96-149 | The account is found by its email (500 when there is none), and the same cascade as users.py's runs on it |
| Admin.DeleteUserByAdmin | server/routers/admin.py:152-190 | The checks in order: a valid session (401), an administrator's role (403), an existing target (404), a target other than the caller (400). It succeeds exactly when all four pass, and then the target's cascade runs and the report is returned; a refusal changes nothing |
| Admin.DeletedAccountNotListed | server/routers/admin.py:34-57 | After a deletion, the listing no longer shows the account's email, when the email named only that account |
| Admin.ValidateMerchant | server/routers/admin.py:216-243 | A valid session (401), an administrator (403) and an existing account (404) are required. It succeeds exactly when all three hold, and then only the first account with the email has its validated flag set; a refusal changes nothing |
| Admin.ValidatedMerchantListed | server/routers/admin.py:38-42 | A validated merchant account appears in the validated-account listing |
| HealthPrediction.ValidateAllInput | server/routers/health_prediction.py:269-348 | A submission is valid exactly when all fifteen checks pass: the age from 0 to 100, the measures in their ranges, each yes/no answer 0 or 1, and each categorical answer a key of its map |
| HealthPrediction.Encode | server/routers/health_prediction.py:42-49 | Each categorical answer is replaced by its map code; the measurements and flags pass through |
| HealthPrediction.EncodingRecoverable | server/routers/health_prediction.py:42-43 | The gender and smoking answers are encoded injectively |
| HealthPrediction.EncodingLossy | server/routers/health_prediction.py:44-49 | Different marital and working answers share a code |
| HealthPrediction.StoredRecord | server/routers/health_prediction.py:76-79 | The HealthData row keeps the measurements, the gender code and the yes/no answers in their columns |
| HealthPrediction.StoredAnswersRecoverable | server/routers/health_prediction.py:76-79 | For a valid submission, each yes/no answer and the gender can be read back from the stored row |
| HealthPrediction.Bmi | server/routers/health_prediction.py:62-68 | The BMI: weight over the square of the height in metres, and 0 for a zero height |
| HealthPrediction.CardioFeatures | server/routers/health_prediction.py:87-98 | The cardiovascular model gets ten features, the BMI third |
| HealthPrediction.StrokeFeatures | server/routers/health_prediction.py:103-114 | The stroke model gets ten features, the BMI ninth |
| HealthPrediction.DiabetesFeatures | server/routers/health_prediction.py:120-129 | The diabetes model gets eight features, the BMI seventh |
| HealthPrediction.StrokeFeaturesLossy | server/routers/health_prediction.py:103-114 | The stroke model cannot tell a divorced retiree from a single unemployed person with the same other answers |
| HealthPrediction.PredictedRow | server/routers/health_prediction.py:136-137 | The Prediction row refers to the stored record and carries the three models' chances |
| HealthPrediction.WithPrediction | server/routers/health_prediction.py:81-141 | The HealthData row and its Prediction row are appended to their tables; nothing else changes |
| HealthPrediction.RecommendationAlwaysFound | server/routers/health_prediction.py:143-153 | Once both rows are committed, the recommendation service always finds them, so predict never gets its error |
| HealthPrediction.FallbackUsesNewRows | server/routers/health_prediction.py:143-153 | With a fresh key, the fallback advice is computed from exactly the rows just committed |
| HealthPrediction.AdviceRow | server/routers/health_prediction.py:165-171 | The Recommendation row refers to the record and holds each of the service's texts |
| HealthPrediction.AdviceFor | server/routers/health_prediction.py:143-163 | The advice is the model's reply whenever there is one |
| HealthPrediction.Stored | server/routers/health_prediction.py:76-173 | A submission appends its health record under key hd, its prediction under hd+1 and its advice under hd+2; the account tables stay |
| HealthPrediction.StoredConsistent | server/routers/health_prediction.py:76-173 | Storing a submission for an existing account keeps every foreign key valid |
| HealthPrediction.Predict | server/routers/health_prediction.py:56-185 | Invalid input gives 422 and an unauthenticated request 401, both before anything is stored; otherwise the three rows are stored, the key counter advances by 3, the chances are the models' outputs times 100, and the advice is the model's reply when there is one |
| HealthPrediction.Store | server/routers/health_prediction.py:76-173 | Commits the three rows under three new keys |
| HealthPrediction.GenderCellAsWritten | server/routers/health_prediction.py:235 | As written, the cell yields a text only when it is "Male" |
| HealthPrediction.FemaleRowRejected | server/routers/health_prediction.py:228-257 | A row with gender "Female" can never be built as written, so the upload stops at it; as intended it is built with gender "Female" |
| HealthPrediction.RowToInputAsWritten | server/routers/health_prediction.py:228-255 | A row is built, with the Gender column as written, only when the gender is "Male" |
| HealthPrediction.RowToInput | server/routers/health_prediction.py:228-255 | A row is built with the gender cell's own text, for the row's merchant |
| HealthPrediction.RowToInputWith | server/routers/health_prediction.py:228-255 | A built row carries the given gender and the merchant's id |
| HealthPrediction.RowConversion | server/routers/health_prediction.py:228-255 | A row can be built exactly when it has a gender, every number column is blank or parses, and every other text column is blank or present |
| HealthPrediction.AllAcceptedMeans | server/routers/health_prediction.py:213-258 | Every row passes its checks exactly when each row, taken alone, does |
| HealthPrediction.PrefixStep | server/routers/health_prediction.py:213-258 | Extending the rows seen by one row adds that row's acceptance and its skip |
| HealthPrediction.Merchant | server/routers/health_prediction.py:198-205 | The uploading merchant is an account of the table |
| HealthPrediction.CurrentUserFrame | server/routers/health_prediction.py:71-72 | The session check gives the same answer on databases with the same account tables, so storing health rows does not change it |
| HealthPrediction.IsCsvName | server/routers/health_prediction.py:193-195 | A file name is accepted exactly when, lowercased, it ends in ".csv" |
| HealthPrediction.ProcessRow | server/routers/health_prediction.py:215-258 | A row is skipped exactly when its email is unknown; a stored row appends its health record for the account it names; a row not stored changes nothing; the account tables stay |
| HealthPrediction.ProcessRows | server/routers/health_prediction.py:213-258 | The upload succeeds exactly when every row is accepted; then the skipped count is the rows with unknown emails, the two counts add up to the rows read, and the health table grows by the processed count |
| HealthPrediction.UploadCsv | server/routers/health_prediction.py:189-266 | A name not ending in ".csv" gives 415 and an unauthenticated request 401, changing nothing; success exactly when every row is accepted, and then "Upload successful." with counts adding up to the rows read and the health table grown by the processed count |
| HealthRecommendation.RealOrZero | server/services/health_recommendation_service.py:52-54 | NULL reads as 0.0, any other value as itself |
| HealthRecommendation.IntOrZero | server/services/health_recommendation_service.py:61 | NULL reads as 0, any other value as itself |
| HealthRecommendation.Conditions | server/services/health_recommendation_service.py:32-44 | At most six conditions are listed |
| HealthRecommendation.BuildContext | server/services/health_recommendation_service.py:25-68 | Activity is always "sedentary", the sex follows the gender flag, and each chance is turned into a fraction of one |
| HealthRecommendation.FallbackExercise | server/services/health_recommendation_service.py:149-153 | The base sentence, then the low-impact one when cardio > 0.5 or stroke > 0.4, then the smoking one, joined by spaces |
| HealthRecommendation.FallbackDiet | server/services/health_recommendation_service.py:155-159 | The base sentence, then the low-glycemic one when diabetes > 0.4, then the fibre one with high cholesterol, joined by spaces |
| HealthRecommendation.FallbackLifestyle | server/services/health_recommendation_service.py:161-165 | The base sentence, then cessation when smoking, then the alcohol limit with alcohol use, joined by spaces |
| HealthRecommendation.Fallback | server/services/health_recommendation_service.py:139-173 | The diet to avoid is the fixed text; the other three fields are non-empty and end in a non-space |
| HealthRecommendation.StripUnspaced | server/services/health_recommendation_service.py:168-173 | Stripping leaves a text that starts and ends with a non-space unchanged |
| HealthRecommendation.StripTrailingSpace | server/services/health_recommendation_service.py:168-173 | Stripping removes exactly the trailing space after the last sentence |
| HealthRecommendation.StripSentences | server/services/health_recommendation_service.py:149-173 | Sentences that begin and end with a letter or full stop come out joined by single spaces |
| HealthRecommendation.JoinShape | server/services/health_recommendation_service.py:149-165 | A join of sentences starts with the first and ends with the last |
| HealthRecommendation.ConditionNames | server/services/health_recommendation_service.py:32-44 | Every listed condition is one of the six names, with its flag set |
| HealthRecommendation.SmokingRecognised | server/services/health_recommendation_service.py:43-44 | The smoking rules apply exactly when the stored smoking code is non-zero |
| HealthRecommendation.LowerHighCholesterol | server/services/health_recommendation_service.py:143 | "High Cholesterol" lowercases to the name the rules test |
| HealthRecommendation.LowerAlcoholUse | server/services/health_recommendation_service.py:143 | "Alcohol Use" lowercases to the name the rules test |
| HealthRecommendation.CholesterolRecognised | server/services/health_recommendation_service.py:158-159 | The fibre rule applies exactly when the high-cholesterol flag is set |
| HealthRecommendation.AlcoholListed | server/services/health_recommendation_service.py:41-42 | A set alcohol flag puts "Alcohol Use" in the condition list |
| HealthRecommendation.AlcoholRecognised | server/services/health_recommendation_service.py:164-165 | The alcohol rule applies exactly when the alcohol flag is set |
| HealthRecommendation.GetHealthRecommendations | server/services/health_recommendation_service.py:71-90 | Missing rows give the error text; otherwise the model's reply when there is one, else the fallback for the stored rows |
| Encryptor.LoadKey | server/utils/encryptor.py:11-25 | A missing or empty value is an error; 43 or 44 characters are read as Base64, others as UTF-8; the key is accepted exactly when it is 32 bytes |
| Encryptor.LoadGeneratedKey | server/utils/encryptor.py:66-68 | The Base64 text of a 32-byte key, as the gen-key command prints it, loads as that key |
| Encryptor.LoadRawKey | server/utils/encryptor.py:18-19 | A 32-character ASCII value is taken as its own bytes |
| Encryptor.FortyThreeCharactersRejected | server/utils/encryptor.py:16-17 | A 43-character value is never a valid key, because no strict Base64 text has that length |
| Encryptor.SplitTag | server/utils/encryptor.py:39 | The two parts concatenate back to the input, and the tag is its last 16 bytes (all of it when shorter) |
| Encryptor.Encrypt | server/utils/encryptor.py:28-45 | Fails exactly when the key does not load, with the key's error |
| Encryptor.Decrypt | server/utils/encryptor.py:48-63 | A non-string gives its error; a wrong field count or prefix a format error; decodable fields with an IV other than 12 bytes an IV error; success only for a well-formed envelope that opens under the key and decodes as UTF-8 to the result |
| Encryptor.EncodingHasNoColon | server/utils/encryptor.py:42-44 | No Base64 field contains the ':' separator |
| Encryptor.EnvelopeSplit | server/utils/encryptor.py:40-45 | The five fields joined by ':' split back into themselves, and the text starts with "v1:gcm:" |
| Encryptor.EnvelopePrefix | server/utils/encryptor.py:40-41 | A join whose first parts are "v1" and "gcm" starts with "v1:gcm:" |
| Encryptor.EnvelopeFields | server/utils/encryptor.py:40-45 | An envelope starts with "v1:gcm:" and splits into exactly five fields, the last three the Base64 of the IV, the tag and the ciphertext |
| Encryptor.DecryptEncrypt | server/utils/encryptor.py:28-63 | Under one key, decrypting what encrypt wrote gives the text back (None comes back as "") |
| Encryptor.RoundTrip | server/utils/encryptor.py:28-63 | Decrypting the envelope of any text's UTF-8 bytes gives that text |
| Base64.SextetChar | server/utils/encryptor.py:42-44 | The character's alphabet value is the six-bit number |
| Base64.CharSextetInverse | server/utils/encryptor.py:55-57 | Only alphabet characters have a value, and each is the character of its value |
| Base64.Encode | server/utils/encryptor.py:42-44 | The encoding is four characters per started group of three bytes, all from the alphabet or '=' |
| Base64.Decode | server/utils/encryptor.py:55-57 | Only a text whose length is a multiple of 4 decodes |
| Base64.GroupRoundTrip | server/utils/encryptor.py:42-57 | A full group of three bytes decodes back |
| Base64.OneByteGroup | server/utils/encryptor.py:42-57 | A padded one-byte group decodes back |
| Base64.TwoByteGroup | server/utils/encryptor.py:42-57 | A padded two-byte group decodes back |
| Base64.DecodeLastGroup | server/utils/encryptor.py:55-57 | A single group of four characters is decoded as the last group |
| Base64.DecodeEncodeShort | server/utils/encryptor.py:42-57 | The last group of one or two bytes decodes back |
| Base64.DecodeEncode | server/utils/encryptor.py:42-57 | Decoding an encoding gives back the bytes |
| Base64.KeyEncodingLength | server/utils/encryptor.py:66-68 | A 32-byte key is written in 44 characters |
| Base64.EncodeChar | server/utils/encryptor.py:32 | One character becomes one to four UTF-8 bytes |
| Base64.Utf8Encode | server/utils/encryptor.py:32 | A text becomes at least one byte per character |
| Base64.DecodeChar | server/utils/encryptor.py:63 | Decoding one character consumes one to four bytes of the input |
| Base64.TwoByteRoundTrip | server/utils/encryptor.py:32-63 | A two-byte character decodes back |
| Base64.ThreeByteRoundTrip | server/utils/encryptor.py:32-63 | A three-byte character decodes back |
| Base64.FourByteRoundTrip | server/utils/encryptor.py:32-63 | A four-byte character decodes back |
| Base64.CharRoundTrip | server/utils/encryptor.py:32-63 | The first character of an encoding decodes back, with its byte count |
| Base64.Utf8RoundTrip | server/utils/encryptor.py:32-63 | Decoding the UTF-8 bytes of a text gives the text back |
| Base64.AsciiLength | server/utils/encryptor.py:18-22 | ASCII text takes one byte per character |
| HealthAnalytics.OrZero | client/src/routes/HealthAnalytics.js:195 | A missing value reads as 0, any other value as itself |
| HealthAnalytics.SelectedMetrics | client/src/routes/HealthAnalytics.js:192-213 | Exactly the ticked metrics, in the order stroke, cardio, diabetes |
| HealthAnalytics.KeepDated | client/src/routes/HealthAnalytics.js:133 | Exactly the records with a usable date are kept, no more than the input |
| HealthAnalytics.Parsed | client/src/routes/HealthAnalytics.js:128-134 | Every parsed record is dated, as many as the dated records |
| HealthAnalytics.ParsedFacts | client/src/routes/HealthAnalytics.js:128-134 | The parsed records are in ascending time order and are a permutation of the dated records |
| HealthAnalytics.DistinctMonths | client/src/routes/HealthAnalytics.js:152-161 | The month keys of the records, each once |
| HealthAnalytics.MonthItems | client/src/routes/HealthAnalytics.js:152-161 | A month's group holds only records of that month, no more than the input |
| HealthAnalytics.MaxIn | client/src/routes/HealthAnalytics.js:216-219 | The fold is at least its start and every value |
| HealthAnalytics.MaxOver | client/src/routes/HealthAnalytics.js:216-219 | The maximum is at least 0 and at least every plotted value |
| HealthAnalytics.Labels | client/src/routes/HealthAnalytics.js:178 | One label per point |
| HealthAnalytics.GroupByMonth | client/src/routes/HealthAnalytics.js:152-161 | The loop's Map holds exactly the months of the records, each mapped to its records, and its key order is the distinct months |
| HealthAnalytics.AggregateMonthly | client/src/routes/HealthAnalytics.js:150-178 | One averaged point per month, in ascending month order |
| HealthAnalytics.SortedKeysGrouped | client/src/routes/HealthAnalytics.js:164-166 | Sorting the insertion-ordered keys gives the ascending months, and each names its group |
| HealthAnalytics.MaxPlotted | client/src/routes/HealthAnalytics.js:216-219 | The loop computes the maximum over every series value, starting from 0 |
| HealthAnalytics.WorkingPoints | client/src/routes/HealthAnalytics.js:140-189 | Monthly points when the range crosses a year, spans more than 180 days or holds more than 20 records; else one point per record |
| HealthAnalytics.PushSeries | client/src/routes/HealthAnalytics.js:192-213 | One series per ticked metric, in the fixed order |
| HealthAnalytics.ChartSpec | client/src/routes/HealthAnalytics.js:122-224 | The chart of the useMemo: the empty chart with bound 60 without dated records, else labels, series and y-axis bound from the working points (properties in ChartEmptyIffUndated, ChartOfDated and the Chart* lemmas) |
| HealthAnalytics.DeriveChart | client/src/routes/HealthAnalytics.js:122-224 | The derivation computes the chart that ChartEmptyIffUndated and ChartOfDated describe |
| HealthAnalytics.ChartEmptyIffUndated | client/src/routes/HealthAnalytics.js:123-138 | No labels exactly when no record has a usable date; then no series and bound 60 |
| HealthAnalytics.BuildSeriesShape | client/src/routes/HealthAnalytics.js:192-213 | The series follow the selected metrics, each with one value per point |
| HealthAnalytics.ChartOfDated | client/src/routes/HealthAnalytics.js:140-223 | With dated records, the chart is built from the working points |
| HealthAnalytics.ChartSeriesMatchSelection | client/src/routes/HealthAnalytics.js:192-213 | One series per ticked metric, in the fixed order, each named after its metric; none for an unticked one |
| HealthAnalytics.ChartAligned | client/src/routes/HealthAnalytics.js:192-213 | Every series has one value per label, also for the empty chart |
| HealthAnalytics.ChartDaily | client/src/routes/HealthAnalytics.js:179-189 | Daily mode: one point per dated record, in time order, labelled YYYY-MM-DD, with its own values |
| HealthAnalytics.SortedMonthsAscending | client/src/routes/HealthAnalytics.js:165 | The months of the monthly chart are strictly ascending |
| HealthAnalytics.SortedMonthsCoverData | client/src/routes/HealthAnalytics.js:152-165 | The months of the monthly chart are exactly the months of the dated records |
| HealthAnalytics.SortedMonthsNonEmpty | client/src/routes/HealthAnalytics.js:167 | Every month of the chart has records, so each average divides by the true count |
| HealthAnalytics.MonthItemsHas | client/src/routes/HealthAnalytics.js:152-161 | The group of a record's own month is not empty |
| HealthAnalytics.ChartMonthly | client/src/routes/HealthAnalytics.js:150-178 | Monthly mode: one point per month, labelled "Mon YYYY", each value the average of that month's records |
| HealthAnalytics.SumWithin | client/src/routes/HealthAnalytics.js:168 | A sum of values in [lo, hi] lies between n * lo and n * hi |
| HealthAnalytics.AverageWithin | client/src/routes/HealthAnalytics.js:167-168 | A month's average lies between the least and the greatest of its values |
| HealthAnalytics.QuotientWithin | client/src/routes/HealthAnalytics.js:168 | Dividing by the count keeps a bounded sum within the bounds |
| HealthAnalytics.YAxisMax | client/src/routes/HealthAnalytics.js:220-221 | The y-axis bound: the maximum plus 5, clamped to [0, 100], rounded up to a multiple of 10 and kept within [10, 100] (properties in YAxisMaxBounds) |
| HealthAnalytics.YAxisMaxBounds | client/src/routes/HealthAnalytics.js:220-221 | The bound is a multiple of 10 in [10, 100], and is at least the maximum plus 5 when that is at most 95 |
| HealthAnalytics.ChartYAxisClearsValues | client/src/routes/HealthAnalytics.js:216-221 | When no value exceeds 95, every plotted value lies at least 5 below the bound |
| HealthAnalytics.MaxOverAttained | client/src/routes/HealthAnalytics.js:216-219 | The maximum is 0 or one of the plotted values |
| HealthAnalytics.MaxInAttained | client/src/routes/HealthAnalytics.js:218 | The fold ends at its start or at one of the values |
| HealthAnalytics.IsoDaySplit | client/src/routes/HealthAnalytics.js:38-41 | Splitting a YYYY-MM-DD label on '-' gives its three fields |
| HealthAnalytics.IndexOf | client/src/routes/HealthAnalytics.js:232 | The first position of the label, or -1 exactly when it is absent |
| HealthAnalytics.FormatDayLabel | client/src/routes/HealthAnalytics.js:22-49 | On a narrow screen, a day label is blank exactly at thinned positions and otherwise shortened to MM/DD; elsewhere it is unchanged |
| HealthAnalytics.FormatMonthLabel | client/src/routes/HealthAnalytics.js:22-49 | On a narrow screen, a month label is blank exactly at thinned positions and otherwise just the month name |
| HealthAnalytics.EndsNeverBlank | client/src/routes/HealthAnalytics.js:32-36 | The first label, and the last when it does not repeat an earlier one, are shown unthinned: as is, or shortened on a narrow screen |
| Dates.MonthIndex | client/src/routes/HealthAnalytics.js:165 | The month number gives back the year by division by 12 and the month by the remainder |
| Dates.TwoDigits | client/src/routes/HealthAnalytics.js:183-184 | A number below 100 is padded to two digits that read back as it |
| Dates.DayLabelShape | client/src/routes/HealthAnalytics.js:181-186 | For years 1000-9999, a day label is "YYYY-MM-DD" and reads back as the year, month and day |
| Dates.DayLabelInjective | client/src/routes/HealthAnalytics.js:181-186 | Distinct days of years 1000-9999 get distinct labels |
| PasswordInputField.JsLength | client/src/components/authentication/PasswordInputField.js:39-47 | JavaScript's length of a text: from the number of characters to twice that, one code unit per character and two for a character above U+FFFF |
| PasswordInputField.BasicPlaneLength | client/src/components/authentication/PasswordInputField.js:39-47 | In the Basic Multilingual Plane the length is the number of characters |
| PasswordInputField.AstralLength | client/src/components/authentication/PasswordInputField.js:39-47 | Text of characters above U+FFFF has twice as many code units as characters |
| PasswordInputField.PasswordValid | client/src/components/authentication/PasswordInputField.js:39-47 | An empty password is invalid; without the restriction, valid exactly when non-empty; with it, valid exactly when its UTF-16 length lies strictly between 14 and 65 |
| PasswordInputField.ClientMatchesServer | client/src/components/authentication/PasswordInputField.js:39-47 | With the restriction, the field accepts exactly what the server's password rule accepts for text in the Basic Multilingual Plane; on any text, what it accepts has at most 64 characters |
| PasswordInputField.AstralPasswordRefused | client/src/components/authentication/PasswordInputField.js:39-47 | Eight emoji (UTF-16 length 16, eight characters) pass the field and fail the server's 15-character minimum |
| PasswordInputField.Reported | client/src/components/authentication/PasswordInputField.js:31-32 | Without truncation the whole input; with it, a prefix of the input of at most 64 UTF-16 code units; the whole input whenever it has fewer than 65 |
| PasswordInputField.UnitCount | client/src/components/authentication/PasswordInputField.js:31-32 | The prefix `substring(0, 64)` keeps is the longest one of at most 64 code units: one more character would exceed them |
| PasswordInputField.ValidNotTruncated | client/src/components/authentication/PasswordInputField.js:23-37 | A password the restricted field accepts is reported whole, truncated or not |
| PasswordInputField.PasswordField.constructor | client/src/components/authentication/PasswordInputField.js:19-21 | The field starts empty, invalid and unaltered |
| PasswordInputField.PasswordField.UpdateState | client/src/components/authentication/PasswordInputField.js:23-37 | The field becomes altered and stores the input and its validity, and reports them |
| PasswordInputField.PasswordField.ErrorText | client/src/components/authentication/PasswordInputField.js:49-63 | No text when unaltered and not forced; "required" for an empty or forced field; otherwise one of the three rule texts; without the restriction only "required" |
| PasswordInputField.PasswordField.ErrorTextMatchesFlag | client/src/components/authentication/PasswordInputField.js:49-67 | Once altered and not forced, the field shows an error text exactly when its error flag is on |
| RegistrationForm.Form.constructor | client/src/components/authentication/RegistrationForm.js:21-32 | Every input is unset and every alert is off |
| RegistrationForm.Form.UpdateName | client/src/components/authentication/RegistrationForm.js:34-38 | A name is valid exactly when non-empty, and the alert shows an empty name |
| RegistrationForm.Form.UpdateEmail | client/src/components/authentication/RegistrationForm.js:40-43 | The email is stored and its alert is cleared |
| RegistrationForm.Form.SetPhoneState | client/src/components/authentication/RegistrationForm.js:23 | The phone state is stored and nothing else changes |
| RegistrationForm.Form.UpdatePassword | client/src/components/authentication/RegistrationForm.js:45-50 | The mismatch alert shows when the confirmation differs or the password is empty |
| RegistrationForm.Form.UpdateConfirmPassword | client/src/components/authentication/RegistrationForm.js:52-57 | The confirmation is stored; with no password state the handler throws, otherwise the mismatch alert follows the comparison |
| RegistrationForm.Form.UpdateAllInputFieldAlerts | client/src/components/authentication/RegistrationForm.js:59-66 | The name alert covers a missing or invalid name; the email and password alerts cover only a missing one |
| RegistrationForm.Form.HandleRegistration | client/src/components/authentication/RegistrationForm.js:89-125 | The alerts are refreshed, and a body is built only when every input is valid and the passwords match; it carries the phone as entered |
| RegistrationForm.PostedPasswordAccepted | client/src/components/authentication/RegistrationForm.js:106-112 | A password posted from the form's restricted, truncating field is the one typed, equals the confirmation and has at most 64 characters; the server's password rule accepts it when it lies in the Basic Multilingual Plane |
| GenerateReportForm.InAllFields | client/src/components/GenerateReportForm.js:150-166 | Every field is among the fields the alerts cover |
| GenerateReportForm.MeasureMatchesServer | client/src/components/GenerateReportForm.js:61-99 | For non-empty text the server reads as the browser does, a measure passes the client's test exactly when it passes the server's rule for it |
| GenerateReportForm.UnparsedTextPassesClient | client/src/components/GenerateReportForm.js:61-66 | The weight texts "  " and "0x10" pass the client's test (read as 0 and 16) and fail the server, which cannot parse them |
| GenerateReportForm.EmptyAgeAccepted | client/src/components/GenerateReportForm.js:54-59 | An empty age text passes the test as written, although the form then posts "" and the server refuses it |
| GenerateReportForm.AgeMatchesServer | client/src/components/GenerateReportForm.js:54-59 | The intended age test refuses the empty text; on other text it agrees with the test as written and, where the server reads the text as the browser does, with the server's integer age rule |
| GenerateReportForm.OptionsKnownToServer | client/src/components/GenerateReportForm.js:236-360 | Every option the form offers is a key of the server's map for that answer |
| GenerateReportForm.Form.constructor | client/src/components/GenerateReportForm.js:23-52 | Every answer is unset and every alert off |
| GenerateReportForm.Form.UpdateAge | client/src/components/GenerateReportForm.js:54-59 | The age and its validity are stored, and its alert shows an invalid age |
| GenerateReportForm.Form.UpdateMeasure | client/src/components/GenerateReportForm.js:61-99 | The measure and its validity are stored, and its alert shows an invalid value |
| GenerateReportForm.Form.UpdateChoice | client/src/components/GenerateReportForm.js:75-78 | The option is stored, and only that field's alert is cleared |
| GenerateReportForm.Form.MissingFields | client/src/components/GenerateReportForm.js:150-166 | Exactly the fields that are unanswered or invalid |
| GenerateReportForm.Form.CompleteIffNothingMissing | client/src/components/GenerateReportForm.js:133-166 | The form is complete exactly when no field is missing |
| GenerateReportForm.Form.UpdateAllInputFieldAlerts | client/src/components/GenerateReportForm.js:150-166 | Each alert shows exactly a missing or invalid answer |
| GenerateReportForm.Form.Submission | client/src/components/GenerateReportForm.js:184-201 | The server decodes the posted form exactly when it can read the age as an integer and every measure as a number; otherwise pydantic refuses it |
| GenerateReportForm.Form.HandleSubmit | client/src/components/GenerateReportForm.js:168-174 | The alerts are refreshed, and the form is posted only when every answer is valid |
| GenerateReportForm.Form.PostedFormPassesServer | client/src/components/GenerateReportForm.js:133-201 | A form the client lets through, with the options it offers and numeric texts the server reads as the browser does, is decoded by the server and passes every check of validate_all_input |
| UserSettings.UpdateGuard | client/src/routes/UserSettings.js:347-351 | The button allows a request only with both passwords given and a confirmation that is empty or equal to the new password |
| UserSettings.RenderContent | client/src/routes/UserSettings.js:517-530 | A panel exactly for "Account Details", "Profile", "Password" and "Notifications" |
| UserSettings.RenderContentInjective | client/src/routes/UserSettings.js:517-530 | No two section names share a panel |
| UserSettings.DeleteErrorText | client/src/routes/UserSettings.js:631-642 | Never empty: a refused request shows its body, or "HTTP <status>" when the body is empty; a failure shows its message, or "Failed to delete account" |
| UserSettings.Settings.constructor | client/src/routes/UserSettings.js:30-73 | The page starts on "Account Details" with empty password inputs, e-mail notifications on and SMS off, logged out, the dialog closed |
| UserSettings.Settings.UpdateForm | client/src/routes/UserSettings.js:121 | Only key k of the profile changes |
| UserSettings.Settings.UpdatePwd | client/src/routes/UserSettings.js:122 | Only key k of the password inputs changes |
| UserSettings.Settings.UpdateNotify | client/src/routes/UserSettings.js:123 | Only key k of the notification switches changes |
| UserSettings.Settings.HandleSave | client/src/routes/UserSettings.js:125-129 | Nothing is sent; the section's confirmation is shown |
| UserSettings.Settings.ClearSaveMessage | client/src/routes/UserSettings.js:128 | The confirmation is cleared when the timer fires |
| UserSettings.Settings.SelectSection | client/src/routes/UserSettings.js:513-515 | The selected section changes, nothing else |
| UserSettings.Settings.HandleChangePassword | client/src/routes/UserSettings.js:96-119 | The three inputs are posted and the success flag becomes whether the server answered OK; the inputs are kept |
| UserSettings.Settings.CheckLoginStatus | client/src/routes/UserSettings.js:79-95 | The page's login flag follows whether /user/me answered OK |
| UserSettings.Settings.ClickDelete | client/src/routes/UserSettings.js:218 | The dialog opens when logged in and not busy |
| UserSettings.Settings.CancelDelete | client/src/routes/UserSettings.js:647 | The dialog closes and nothing else changes |
| UserSettings.Settings.ConfirmDelete | client/src/routes/UserSettings.js:622-646 | A request is made exactly when logged in; a deletion closes the dialog and navigates to /login; a failure sets the error text; busy is cleared at the end |
| UserManagementTable.RowOf | server/routers/admin.py:44-57 | The row carries the account's email and name, and a role id exactly when the account has a role, then with its name |
| UserManagementTable.WithRole | client/src/components/administrator/UserManagementTable.js:66-70 | The rows with that email get the new role; every other row is kept |
| UserManagementTable.WithRoleKeepsEmails | client/src/components/administrator/UserManagementTable.js:66-70 | A role change keeps the emails, so the table's row ids, in order |
| UserManagementTable.WithoutEmail | client/src/components/administrator/UserManagementTable.js:131 | Every row with that email goes, and the others stay in order |
| UserManagementTable.EntryText | client/src/components/administrator/UserManagementTable.js:123 | The count's digits, a space, then the key with no underscore left |
| UserManagementTable.Entries | client/src/components/administrator/UserManagementTable.js:121-124 | No listed text is empty |
| UserManagementTable.EntriesCount | client/src/components/administrator/UserManagementTable.js:121-124 | One text per positive entry, none for the others |
| UserManagementTable.EntriesEmpty | client/src/components/administrator/UserManagementTable.js:121-125 | There is nothing to list exactly when no count is positive |
| UserManagementTable.EntriesAppend | client/src/components/administrator/UserManagementTable.js:121-124 | The entries of two reports are the entries of each, in order |
| UserManagementTable.DetailsEmpty | client/src/components/administrator/UserManagementTable.js:121-125 | The details are empty exactly when no count is positive |
| UserManagementTable.DeletionMessage | client/src/components/administrator/UserManagementTable.js:119-128 | The message starts with "User '<name>' deleted." and is exactly that without a report |
| UserManagementTable.CleanedUpClause | client/src/components/administrator/UserManagementTable.js:119-128 | The clause is left out exactly when no count is positive, and otherwise lists the details |
| UserManagementTable.JoinLast | client/src/components/administrator/UserManagementTable.js:124 | A join ends with its last part |
| UserManagementTable.LastEntry | client/src/components/administrator/UserManagementTable.js:121-124 | A positive last entry is the last text |
| UserManagementTable.LastPositiveCleanedUp | client/src/components/administrator/UserManagementTable.js:119-128 | A report whose last count is positive gets a clause ending with that entry |
| UserManagementTable.ServerReportCleanedUp | client/src/components/administrator/UserManagementTable.js:119-128 | The server's report always ends by counting the deleted account, so its message always has the clause, ending with "1 users deleted" |
| UserManagementTable.DeleteErrorText | client/src/components/administrator/UserManagementTable.js:110-113 | The server's detail when it gives one, else "Failed to delete user: " and the status text; a failure shows its message |
| UserManagementTable.Table.constructor | client/src/components/administrator/UserManagementTable.js:11-19 | No rows, nothing selected, both dialogs closed, the snackbar closed |
| UserManagementTable.Table.LoadUsers | client/src/components/administrator/UserManagementTable.js:24-36 | The rows become one row per listing, in order; nothing else changes |
| UserManagementTable.Table.SelectorValue | client/src/components/administrator/UserManagementTable.js:154 | The pending role (when truthy) on the row being edited, else the row's own role |
| UserManagementTable.Table.ClickSettings | client/src/components/administrator/UserManagementTable.js:167 | The row becomes the one being edited |
| UserManagementTable.Table.HandleRoleSelect | client/src/components/administrator/UserManagementTable.js:88-93 | The row, its old role and the new role are recorded, and the dialog opens |
| UserManagementTable.Table.CancelRoleChange | client/src/components/administrator/UserManagementTable.js:80-85 | The dialog closes and the pending row and roles are cleared |
| UserManagementTable.Table.ConfirmRoleChange | client/src/components/administrator/UserManagementTable.js:52-77 | On success, the row gets the new role and the dialog closes and clears; on failure nothing changes |
| UserManagementTable.Table.HandleDeleteUser | client/src/components/administrator/UserManagementTable.js:95-99 | The first row with that email (if any) is pending, and the dialog opens |
| UserManagementTable.Table.CancelDeleteUser | client/src/components/administrator/UserManagementTable.js:235 | The dialog closes, and the pending user stays recorded |
| UserManagementTable.Table.ConfirmDeleteUser | client/src/components/administrator/UserManagementTable.js:101-138 | Without a pending user nothing happens; a deletion removes the rows and shows its message; a failure shows the error text |
| UserManagementTable.Table.CloseSnackbar | client/src/components/administrator/UserManagementTable.js:240 | Only the snackbar's open flag changes |
| MerchantReports.IndexOf | client/src/routes/MerchantReports.js:41-50 | The first position of a name, or -1 exactly when it is absent |
| MerchantReports.IndexOfAtMost | client/src/routes/MerchantReports.js:41-50 | The first occurrence is no later than any occurrence |
| MerchantReports.Names | client/src/routes/MerchantReports.js:41-50 | The names of the entries, one per entry, in order |
| MerchantReports.DistinctNames | client/src/routes/MerchantReports.js:41-50 | Each name once, exactly the names given, in order of first occurrence |
| MerchantReports.ReportsOf | client/src/routes/MerchantReports.js:89-91 | Exactly the patient's reports, in fetched order; none for no patient |
| MerchantReports.WithoutReport | client/src/routes/MerchantReports.js:86-87 | Every report with the id goes, and the others stay |
| MerchantReports.FiltersCommute | client/src/routes/MerchantReports.js:86-91 | A patient's reports after a deletion are that patient's earlier reports without the deleted one |
| MerchantReports.FilterSwap | client/src/routes/MerchantReports.js:86-91 | Two filters applied in either order give the same list |
| MerchantReports.First | client/src/routes/MerchantReports.js:120-122 | The first report, or none exactly for an empty list |
| MerchantReports.Page.constructor | client/src/routes/MerchantReports.js:23-30 | No reports, no patients, nothing selected, the dialog closed |
| MerchantReports.Page.LoadReports | client/src/routes/MerchantReports.js:32-53 | A non-empty answer replaces the reports, lists each patient once in order of first appearance, and clears the selection; an empty answer changes nothing |
| MerchantReports.Page.SelectPatient | client/src/routes/MerchantReports.js:117-123 | The patient's reports are shown and the first is selected |
| MerchantReports.Page.SelectDate | client/src/routes/MerchantReports.js:136 | The item becomes the selected report, and nothing else changes |
| MerchantReports.Page.SetDeleteDialog | client/src/routes/MerchantReports.js:160 | Only the dialog flag changes |
| MerchantReports.Page.DeleteReport | client/src/routes/MerchantReports.js:75-98 | With no selection nothing happens; otherwise the selected id is sent, its reports go, the patient's remaining reports are shown with the first selected, and the dialog closes |
| MerchantReports.Page.DeletionShrinksShownList | client/src/routes/MerchantReports.js:86-91 | A shown list that was the patient's is shown again without the deleted report, in the same order |
| DownloadReportButton.DatePart | client/src/components/DownloadReportButton.js:30-38 | "report" for a missing, empty or unparseable date, otherwise the local day as year-month-day |
| DownloadReportButton.DayLabelNotPlaceholder | client/src/components/DownloadReportButton.js:30-38 | A day label is never the "report" placeholder |
| DownloadReportButton.DatePartPlaceholder | client/src/components/DownloadReportButton.js:30-38 | The date part is "report" exactly when the date is missing, empty or unparseable |
| DownloadReportButton.DatePartFields | client/src/components/DownloadReportButton.js:30-38 | For a four-digit year, the date part reads back as the local year, month and day |
| DownloadReportButton.NameId | client/src/components/DownloadReportButton.js:41-42 | The meta id when present, else the button's own id |
| DownloadReportButton.FileName | client/src/components/DownloadReportButton.js:41-42 | A non-empty hint is the name, verbatim |
| DownloadReportButton.DefaultFileName | client/src/components/DownloadReportButton.js:41-42 | Without a hint, the name is "HealthReport_", the id, "_", the date part and ".pdf" |
| DownloadReportButton.HandleDownload | client/src/components/DownloadReportButton.js:22-53 | Refused exactly without flat data and without a truthy id; otherwise saved under the file name, or failed with the generator's message |
| DownloadReportButton.OnErrorArgument | client/src/components/DownloadReportButton.js:47-52 | onError gets null exactly after a saved file |
| DownloadReportButton.GuardReportsOnly | client/src/components/DownloadReportButton.js:23-26 | With neither flat data nor an id, only the guard's message is reported |
| Roles.UseRole | client/src/utils/useRole.js:10-30 | False while loading or without a user; otherwise true exactly when the role is the expected one, or one of the expected array |
| Roles.UseRoleSingleton | client/src/utils/useRole.js:13-26 | A one-element array and the single role give the same answer |
| Roles.Landing | client/src/utils/LandingRoute.js:7-36 | Nothing while loading; once loaded always a redirect, to the role's own page when it has one |
| Roles.LandingLogin | client/src/utils/LandingRoute.js:24-35 | A loaded user goes to /login exactly when there is no user or its role is none of the three |
| Roles.SeededRolesLand | client/src/utils/LandingRoute.js:28-32 | Every seeded role has its own landing page, and no two share one |
| Roles.Protected | client/src/utils/ProtectedRoutes.js:7-30 | Nothing while loading, /login without a user; the page exactly when the role is the required one, else /landing |
| Roles.ProtectedMatchesUseRole | client/src/utils/ProtectedRoutes.js:24-29 | A guard with a role admits exactly the users useRole accepts for that role |
| Roles.LoginGuard | client/src/index.js:34-39 | The guard without a role shows the login pages to a role-less body and sends a logged-in user on |
| Roles.LandingPageAdmits | client/src/index.js:43-62 | A user with one of the three roles is sent to a page whose guard admits that user |
| Roles.UnknownRoleCycles | client/src/index.js:34-43 | A logged-in user with any other role is sent from /landing to /login and back, without end |
| Strings.NatToString | client/src/routes/HealthAnalytics.js:182-185 | Decimal digits, most significant first, without leading zeros |
| Strings.NatToStringValue | client/src/routes/HealthAnalytics.js:182-185 | The digits read back as the number |
| Strings.NatToStringInjective | client/src/routes/HealthAnalytics.js:182-185 | Distinct numbers never share a text |
| Strings.NatToStringLength | client/src/routes/HealthAnalytics.js:182-185 | A number with w digits is rendered in w characters |
| Strings.IntToString | client/src/routes/HealthAnalytics.js:170 | A minus sign before a negative value's digits, else the digits |
| Strings.PadStart2 | client/src/routes/HealthAnalytics.js:183-184 | Texts of two or more characters are unchanged; shorter ones get leading '0's up to two |
| Strings.Split | server/utils/encryptor.py:51 | At least one part, and no part holds the separator |
| Strings.SplitWithoutSeparator | server/utils/encryptor.py:51 | A text without the separator splits into itself |
| Strings.SplitAfterSeparator | server/utils/encryptor.py:51 | Splitting a part, the separator and a rest gives the part before the rest's parts |
| Strings.SplitJoin | server/utils/encryptor.py:40-52 | Splitting a join recovers the parts when no part contains the separator |
| Strings.RemoveChars | server/routers/authentication.py:392-395 | No dropped character remains, and the result is no longer than the text |
| Strings.ReplaceChar | client/src/components/administrator/UserManagementTable.js:123 | Every occurrence of the character is replaced, and nothing else changes |
| Strings.Strip | server/services/health_recommendation_service.py:168-173 | No longer than the text, and a non-empty result has no whitespace at either end |
| Strings.ToLower | server/services/health_recommendation_service.py:143 | Every ASCII capital is lowered, every other character kept |
| Sorting.WithKey | client/src/routes/HealthAnalytics.js:134 | Every element has the key, and there are no more than in the input |
| Sorting.Insert | client/src/routes/HealthAnalytics.js:134 | One element longer, and the multiset gains the element |
| Sorting.SortBy | client/src/routes/HealthAnalytics.js:134 | The sort keeps the elements, with multiplicity |
| Sorting.InsertSorted | client/src/routes/HealthAnalytics.js:134 | Inserting into a sorted sequence keeps it sorted |
| Sorting.SortBySorted | client/src/routes/HealthAnalytics.js:134 | The sort orders by key and keeps the elements with multiplicity |
| Sorting.InsertWithKey | client/src/routes/HealthAnalytics.js:134 | The inserted element goes before its own key's elements; other keys' elements are unchanged |
| Sorting.SortByStable | client/src/routes/HealthAnalytics.js:134 | The elements sharing a key keep their relative order |
| Sorting.DistinctCount | client/src/routes/HealthAnalytics.js:165 | An element occurs at most once in a sequence without repeats |
| Sorting.RepeatCount | client/src/routes/HealthAnalytics.js:165 | A repeated element occurs at least twice |
| Sorting.SortByDistinct | client/src/routes/HealthAnalytics.js:165 | Sorting a sequence without repeats gives one without repeats |
| Lists.Filter | client/src/routes/MerchantReports.js:86-91 | No longer than the input |
| Lists.FilterMembers | client/src/routes/MerchantReports.js:86-91 | The filter keeps exactly the elements satisfying the predicate |
| Lists.Remove | server/routers/users.py:99-121 | A bulk DELETE leaves no more rows than before |
| Lists.RemoveMembers | server/routers/users.py:99-121 | A DELETE leaves exactly the rows not satisfying its condition |
| Lists.RemoveCount | server/routers/users.py:99-121 | The rows a DELETE reports plus the rows it leaves are all the rows there were |
| Lists.FirstIndex | server/routers/authentication.py:338-340 | The first index satisfying the predicate, or -1 exactly when none does |

## Left out

- Networking, cookies and the HTTP framework are not modelled: a request's cookie, address and body are arguments, and a response is a status or a value.
- JWT signing, the ACCESS_TOKEN expiry and the `exp` claim are not modelled. A cookie decodes or it does not.
- Argon2's salting and one-wayness are not modelled. A digest verifies exactly its own password.
- The email syntax check (`email_validator`), phone-number parsing (`phonenumbers`) and `secrets.token_urlsafe` are library calls. Their outcomes are inputs.
- validate_email_address and _send_validation_email send mail and are not modelled. Registration stores the validation token row; get_roles and get_merchant_reports are plain reads and are not modelled.
- The risk models' `predict_proba` are trained scikit-learn objects. Each is an opaque function of its feature vector, and `round(..., 2)` on their output is not modelled.
- BMI and all measurements use exact reals, not floating point.
- The call to the language model (prompt, client, JSON parsing) is not modelled. Its reply is an input, None when the call fails or no client is configured.
- HealthRecommendation.BuildContext: the rounding of height and weight to one decimal is not modelled.
- Encryptor.LoadKey: Python's `b64decode` without `validate=True` discards characters outside the alphabet; the model's decoder is strict, so a 44-character value with stray characters is refused where Python might accept it.
- AES-GCM itself is abstract: only its round trip under one key and IV is kept. The IV from `os.urandom(12)` is an argument.
- HealthAnalytics.OrZero: `Number(x) || 0` keeps an infinite value; the model has no infinities, so a missing or NaN value is the only one read as 0.
- Date parsing and local time are not modelled: a parsed date is its local calendar fields and its time value.
- Ties between equal timestamps in SQL `ORDER BY` are taken in table order. A database may return them in another order.
- The upload's 404 for a missing merchant (health_prediction.py:202-205) cannot be reached after a successful session check and is folded into it. The same holds for the administrator routes' 401s after the session check.
- delete_report_data's catch-all 500 for database exceptions is not modelled; the in-memory tables do not fail.
- CSV decoding (`csv.DictReader` over UTF-8) is not modelled: a row is a map from column name to cell text.
- Key uniqueness is not enforced by the tables: a query's `.first()` is the first match in table order.
- The fetch calls, navigation, React rendering and the MUI components are not modelled. Each handler takes the outcome of its fetch as an argument.
- The report-data fetch of MerchantReports and the PDF generation of the download button are not modelled. A generation failure is an input.
- The role-change dialog's texts and getHealthData of the analytics page are not modelled.
- EmailInputField and PhoneInputField are not modelled. Their validity reaches the registration form as input state.
- The merchant reports route is written without its leading slash (index.js:58), so as a nested route it resolves relative to its parent. The route table keeps it as written.
- Routes that use a corrected member of the Findings table answer as the corrected member does:
  - Authentication.Logout, Authentication.ChangePassword, Users.DeleteUser, Users.GetHealthAnalytics, Admin.DeleteUserByAdmin, Admin.ValidateMerchant, HealthPrediction.Predict and HealthPrediction.UploadCsv use Authentication.CurrentUser. For a token of a deleted or role-less account they answer 401, where the code as written answers 500 (Authentication.CurrentUserAsWritten).
  - HealthPrediction.ProcessRow, HealthPrediction.ProcessRows and HealthPrediction.UploadCsv use HealthPrediction.RowToInput. A CSV row with gender "Female" is stored, where the code as written stops the upload (HealthPrediction.RowToInputAsWritten).
  - GenerateReportForm.Form.UpdateAge and GenerateReportForm.Form.HandleSubmit use GenerateReportForm.AgeValid. An empty age raises the alert, where the code as written posts "" (GenerateReportForm.AgeValidAsWritten).
  - Authentication.Register uses the intended name and phone rules of the first two Findings rows.
- PasswordInputField.ClientMatchesServer: the field and the server agree only on text in the Basic Multilingual Plane. Above it JavaScript counts two code units per character, so AstralPasswordRefused shows eight emoji passing the field and failing the server.
- RegistrationForm.PostedPasswordAccepted: the server's acceptance is promised only for text in the Basic Multilingual Plane, for the same reason.
- PasswordInputField.Reported: when the 64th code unit is the first half of a surrogate pair, `substring` keeps that lone half. Dafny's strings cannot hold a lone surrogate, so the model stops before that character.
- GenerateReportForm.MeasureMatchesServer, GenerateReportForm.AgeMatchesServer and GenerateReportForm.Form.PostedFormPassesServer: the agreement with the server holds only for text the server reads as the browser does. UnparsedTextPassesClient shows blank and hexadecimal text passing the client and failing the server. How each side converts a text to a number is an input, not modelled.
- Encryptor.Decrypt: the IV, tag and ciphertext fields are decoded strictly. Python's `b64decode` without `validate=True` discards characters outside the alphabet, so an envelope with stray characters in a field is refused where Python might open it.
- Strings.Strip: only ASCII whitespace is stripped. Python's `strip` also removes other Unicode spaces, such as U+00A0, in the CSV email cell (health_prediction.py:221) and the blank-email test (users.py:137).
- Strings.ToLower: only ASCII letters are lowercased; Python's `lower` also folds other letters of an uploaded file's name or a role name.
- An empty confirmation passes the settings page's button guard (UserSettings.js:347-351). The server's change_password then answers 401. UserSettings.UpdateGuard states this.

## Findings

| source | as written | input that shows it | evidently intended | confidence | as-written member | corrected member |
|---|---|---|---|---|---|---|
| server/routers/authentication.py:413-415 | `name is not None or len(name) <= 255` holds for every string | a 256-character name | names longer than 255 characters are refused | high, not executed | Authentication.LongNameAccepted | Authentication.Register |
| server/routers/authentication.py:404 | `phone[1:].isalpha` names the method without calling it, so the test is always truthy | the phone "+1800FLOWERS" | only digits after the leading '+' | high, not executed | Authentication.PhoneLettersAccepted | Authentication.Register |
| server/routers/authentication.py:319-324 | the account's TokenVersion is read before the check that the account exists | a valid token of a deleted account | 401 "Invalid credentials" | high, not executed | Authentication.DeletedAccountIsServerError | Authentication.CurrentUser |
| server/routers/authentication.py:350 | `user_role[0]` on a missing role row raises | a current token of an account without a role mapping | 401 for an account without a role | medium, not executed | Authentication.RolelessAccountIsServerError | Authentication.CurrentUser |
| server/routers/health_prediction.py:235 | `gender_map["Female"]` is 0, so the gender becomes the number 0 and validation fails | a CSV row with Gender "Female" | the row is stored with gender "Female" | high, not executed | HealthPrediction.FemaleRowRejected | HealthPrediction.RowToInput |
| client/src/components/GenerateReportForm.js:54-59 | `Number("")` is 0, which passes the age test | an empty age field | an empty age is refused | high, not executed | GenerateReportForm.EmptyAgeAccepted | GenerateReportForm.AgeMatchesServer |
