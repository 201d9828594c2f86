# physicsium in Dafny

A model of the core of physicsium, a physics-learning site, covering three parts.

- The Express backend:
  - the account handlers (`register`, `login`, `checkUsername`, and the signed-in user's own updates and deletion);
  - the admin user-management handlers and the admin router's middleware chains;
  - the request-body validation rules and `validate`;
  - the NoSQL-operator filter;
  - the CORS origin policy;
  - the scripts that discover lab components and rebuild the unit catalogue.
- The two Vue front ends' Pinia stores (the learner site's and the admin panel's session stores, and the admin list store) and the admin panel's navigation guard.
- The relative-velocity lab's seven scenarios: their start layouts, the position update of one animation step, and the statistics.

Everything is pure.

- A database is a `map` from id to record, or a `seq` where the order of a listing matters.
- An HTTP call a store makes appears as the `Client.Response` it received.
- A handler's outcome is an `Accounts.Reply`: a JSON reply, an error passed on with its status, or an exception that reaches the error middleware.
- Library calls become function parameters: the password hash and comparison, `isEmail`, `isMongoId`, the token signer, the username suggester and the trigonometry of the lab's start layouts.
- Each module follows one source file. `Strings` holds the JavaScript string operations the rest share: ASCII `toLowerCase`, `trim` with the ECMAScript white-space set, `includes`, `indexOf`, `replace` of a first occurrence, `split` and `join`. `UnitCatalogue` holds what the two unit scripts share.

## Model

| member | source | states |
|---|---|---|
| Strings.JoinSplit | backend/server.js:29 | joining a split with the same separator gives the text back |
| Strings.SplitJoin | backend/server.js:29 | splitting a join on a separator that occurs in no part gives the parts back |
| Strings.Trim | backend/server.js:29 | `trim` removes exactly the leading and trailing white space: the result is a slice of the input with no white space at either end |
| Strings.TrimTrimmed | backend/server.js:29 | a text with no white space at either end is its own trim |
| Strings.TrimIdempotent | backend/server.js:29 | trimming twice is trimming once |
| Strings.TrimKeepsOut | backend/server.js:29 | trimming brings in no character: one absent from the text is absent from its trim |
| Strings.Lower | backend/autoSyncSimulations.js:45 | `toLowerCase` lower-cases each character in place: the length is kept, capitals become their small letters, and every other character stays |
| Strings.LowerIdempotent | backend/controllers/authController.js:74 | lower-casing twice is lower-casing once |
| MongoSanitize.Sanitize | backend/middleware/mongoSanitize.js:4-22 | the result has no blocked key and no own `__proto__` member at any depth, arrays stay arrays, objects stay objects, and primitives are untouched |
| MongoSanitize.SanitizeMembers | backend/middleware/mongoSanitize.js:10-19 | every surviving member has a kept key (unblocked and not `__proto__`) and a clean value, and no key is invented |
| MongoSanitize.ArraysElementwise | backend/middleware/mongoSanitize.js:6-8 | arrays keep their length and order, and element i of the result is element i sanitized |
| MongoSanitize.MembersPreserved | backend/middleware/mongoSanitize.js:11-17 | every member with a kept key survives, carrying its sanitized value |
| MongoSanitize.MembersFromInput | backend/middleware/mongoSanitize.js:10-19 | every member of the result is a kept member of the input with its value sanitized |
| MongoSanitize.ObjectKeys | backend/middleware/mongoSanitize.js:10-19 | an object's keys afterwards are exactly its keys that neither start with `$`, contain `.`, nor are `__proto__` |
| MongoSanitize.ProtoKeyDropped | backend/middleware/mongoSanitize.js:10-19 | an own `__proto__` key never survives, because assigning it into `{}` sets the prototype and creates no member; every other unblocked key survives |
| MongoSanitize.SanitizeWellFormed | backend/middleware/mongoSanitize.js:10-19 | objects with distinct keys keep them distinct at every depth |
| MongoSanitize.SanitizeCleanIsIdentity | backend/middleware/mongoSanitize.js:4-22 | a value without blocked keys or `__proto__` members is returned unchanged |
| MongoSanitize.Idempotent | backend/middleware/mongoSanitize.js:4-22 | sanitizing twice is sanitizing once |
| MongoSanitize.Middleware | backend/middleware/mongoSanitize.js:24-48 | body, query and params come out clean. An object body is replaced by its sanitized form and a non-object body is left alone. Query and params keep exactly their kept keys |
| MongoSanitize.Refill | backend/middleware/mongoSanitize.js:32-44 | emptying a container in place and assigning the sanitized copy's keys leaves the sanitized value, which is clean |
| AutoSyncSimulations.MarkCapitals | backend/autoSyncSimulations.js:37-43 | inserting a mark before each capital never shortens the name, keeps its last character and adds only the mark |
| AutoSyncSimulations.SimulationId | backend/autoSyncSimulations.js:40-45 | a simulation id contains no ASCII capital |
| AutoSyncSimulations.DropFirst | backend/autoSyncSimulations.js:45 | `substring(1)` drops the first character, and of an empty name leaves it empty |
| AutoSyncSimulations.SpaceMarksBecomeDashes | backend/autoSyncSimulations.js:37-45 | for a space-free base, marking capitals with spaces and then turning spaces into dashes is marking them with dashes |
| AutoSyncSimulations.IdIsKebabName | backend/autoSyncSimulations.js:34-45 | for a capitalised base without white space, the id is the display name lower-cased with spaces as dashes |
| AutoSyncSimulations.LowercaseStartIsLost | backend/autoSyncSimulations.js:40-45 | a base not starting with a capital loses its first character in the id |
| AutoSyncSimulations.DiscoverFolder | backend/autoSyncSimulations.js:29-53 | a folder yields at most one component per file, all in that folder's category |
| AutoSyncSimulations.DiscoverFolderExactly | backend/autoSyncSimulations.js:31-52 | a file of a folder is discovered iff it is a component file, with its derived id and name |
| AutoSyncSimulations.DiscoverFrom | backend/autoSyncSimulations.js:21-54 | every discovered component carries one of the scanned categories |
| AutoSyncSimulations.Discover | backend/autoSyncSimulations.js:17-57 | every discovered component's category is one the Simulation model admits |
| AutoSyncSimulations.DiscoverExactly | backend/autoSyncSimulations.js:17-57 | a component is discovered iff it is a component file of a scanned folder that exists, with the id, name and category derived from it |
| AutoSyncSimulations.SyncOne | backend/autoSyncSimulations.js:78-96 | over a store the schema admitted, a write is refused iff the id is blank or the name empty, and the store stays admissible. Otherwise a new id is created visible. An existing id keeps its visibility and gets the discovered name and category. No other record changes. "Untouched" holds iff the store is unchanged |
| AutoSyncSimulations.BareLabRefused | backend/models/Simulation.js:4-13 | a file named just `Lab.vue` is discovered with an empty name, and the schema refuses to store it |
| AutoSyncSimulations.SyncLoop | backend/autoSyncSimulations.js:77-97 | the loop stops exactly at the first component the schema refuses, after writing every earlier one |
| AutoSyncSimulations.AutoSync | backend/autoSyncSimulations.js:73-125 | the script completes iff every discovered component is storable, and the store stays admissible. On completion the counts add up to the number discovered, the store gains exactly the discovered ids, old records keep their visibility, new ones are visible, records not discovered are unchanged, and the last component with an id decides its name and category. On failure the run stopped at the first refused component, and the store holds exactly the writes of the components before it, with the same guarantees over that prefix |
| UnitCatalogue.DashRuns | backend/syncFromFrontend.js:35 | the result has no white space, is no longer than the input, and is empty iff the input is |
| UnitCatalogue.DashRunsNoSpace | backend/syncFromFrontend.js:35 | a string without white space is left as it is |
| UnitCatalogue.DashRunsRun | backend/syncFromFrontend.js:35 | a white-space run between a word and the rest becomes exactly one dash |
| UnitCatalogue.SomeIncludedIff | backend/syncFromFrontend.js:37 | `some(includes)` holds iff one of the words occurs in the text |
| UnitCatalogue.HasSimulationsIff | backend/syncFromFrontend.js:29-37 | a unit has simulations iff its lower-cased title mentions kinematics, electrostatics or gravitation |
| UnitCatalogue.Classify | backend/syncFromFrontend.js:18-26 | the reference classifier returns the category of the first rule that fires, or the fallback when none fires |
| UnitCatalogue.ClassifyFive | backend/syncFromFrontend.js:18-26 | over five rules the classifier is the chain of five ordered tests ending in the fallback |
| SyncFromFrontend.Category | backend/syncFromFrontend.js:18-26 | every computed category is one the Unit model admits |
| SyncFromFrontend.MagneticInElectromagnetic | backend/syncFromFrontend.js:22-23 | a title mentioning `electromagnetic` already mentions `magnetic`, so the later electromagnetic-wave test can never fire |
| SyncFromFrontend.CategoryIsFirstMatch | backend/syncFromFrontend.js:18-26 | the category is the first-match classifier over the script's rules on the lower-cased title, with mechanics as the fallback |
| SyncFromFrontend.RulesFire | backend/syncFromFrontend.js:20-24 | which keywords make each rule fire |
| SyncFromFrontend.UnitId | backend/syncFromFrontend.js:35 | a unit id starts with `unit-` and has no white space |
| SyncFromFrontend.Prepared | backend/syncFromFrontend.js:34-47 | one entry per syllabus item, in order, each under its item's id |
| SyncFromFrontend.DerivedStorable | backend/models/Unit.js:4-17 | derived unit data passes schema validation iff the syllabus item has every required field |
| SyncFromFrontend.Upsert | backend/syncFromFrontend.js:49-62 | a write is refused iff validation fails. Otherwise the id is added and "created" holds iff it was new. An existing unit is overwritten except for its visibility, and nothing else changes |
| SyncFromFrontend.UpsertAll | backend/syncFromFrontend.js:34-63 | the writes succeed iff every entry is storable, with created + updated = entries and created = new ids. Old units keep their visibility, new ones are visible, and unnamed units are untouched. The last entry with an id decides its record |
| SyncFromFrontend.Sync | backend/syncFromFrontend.js:10-88 | the script succeeds iff every item is complete. Both counts are exact, visibility is kept, and other units are untouched. Each id's unit is derived from the last item carrying it |
| CleanAndSync.Category | backend/cleanAndSync.js:21-29 | every computed category is one the Unit model admits |
| CleanAndSync.CategoryIsFirstMatch | backend/cleanAndSync.js:21-29 | the category is the first-match classifier over the script's rules, with mechanics as the fallback |
| CleanAndSync.RulesFire | backend/cleanAndSync.js:23-27 | which keywords make each rule fire; `wave` counts as optics only without `oscillation` |
| CleanAndSync.ClassifiersAgree | backend/cleanAndSync.js:21-29 | the two scripts' classifiers agree on titles that mention none of `induction`, `wave`, `electronic` and `device` |
| CleanAndSync.UnitId | backend/cleanAndSync.js:35 | the id has no white space, is no longer than the unit number, and is empty iff the unit number is |
| CleanAndSync.FrontendIdIsPrefixed | backend/cleanAndSync.js:35 | the frontend sync's id is this id behind `unit-`, and removing the prefix gives it back |
| CleanAndSync.RecordStorable | backend/cleanAndSync.js:39-47 | a created unit passes schema validation iff the item is complete |
| CleanAndSync.Entries | backend/cleanAndSync.js:34-47 | one entry per item, in order, under its id |
| CleanAndSync.CreateLoop | backend/cleanAndSync.js:34-48 | the loop stops exactly at the first entry that fails validation or repeats an id |
| CleanAndSync.CreateAll | backend/cleanAndSync.js:13-48 | creation succeeds iff all entries are storable with distinct ids. Every stored unit is visible and has one of the ids. On success there is exactly one unit per entry, holding that entry's data |
| CleanAndSync.Rebuild | backend/cleanAndSync.js:7-68 | the rebuild succeeds iff every item is complete and ids are distinct. Nothing of the old store survives. On success the store holds exactly one visible unit per item, built from it |
| Scenarios.DriftAll | frontend/src/components/unit/kinematics/labs/scenarios.js:13-18 | the number of bodies is kept; every body keeps its velocity and kind, and its displacement on each axis is its velocity times `dt` |
| Scenarios.RiverStep | frontend/src/components/unit/kinematics/labs/scenarios.js:51-61 | the boat moves with its own speed plus the current, the reference body moves with the current horizontally, and other bodies and all velocities stay |
| Scenarios.AeroplaneStep | frontend/src/components/unit/kinematics/labs/scenarios.js:108-115 | with two bodies present, the plane moves with its velocity plus the wind's; the wind body and the rest stay |
| Scenarios.FlagStep | frontend/src/components/unit/kinematics/labs/scenarios.js:330-333 | only the man moves, horizontally |
| Scenarios.WrapSequential | frontend/src/components/unit/kinematics/labs/scenarios.js:179-185 | the man's wrap keeps a position inside the bounds and leaves one already inside unchanged |
| Scenarios.WrapExclusive | frontend/src/components/unit/kinematics/labs/scenarios.js:203-205 | the clouds' wrap does the same |
| Scenarios.WrapsAgree | frontend/src/components/unit/kinematics/labs/scenarios.js:179-207 | the two wrap codings agree on every input |
| Scenarios.Clouds | frontend/src/components/unit/kinematics/labs/scenarios.js:164-174 | five clouds, moving with the air speed, horizontally |
| Scenarios.Inject | frontend/src/components/unit/kinematics/labs/scenarios.js:164-174 | a rain state of 1 to 4 bodies keeps them in front and gains exactly five clouds behind them, all moving horizontally at the air speed; any other state is left as it is |
| Scenarios.CloudPass | frontend/src/components/unit/kinematics/labs/scenarios.js:197-207 | other bodies are untouched. Every cloud ends with the air speed, inside the cloud bounds, at its height and with its kind, and a cloud that stays inside the bounds advances by the air speed times `dt`, the time scale and one half |
| Scenarios.RainKeepsHeights | frontend/src/components/unit/kinematics/labs/scenarios.js:159-208 | no body of the rain scenario moves vertically or changes kind |
| Scenarios.RainCloudsWrapped | frontend/src/components/unit/kinematics/labs/scenarios.js:197-207 | every cloud ends with the air speed and inside the cloud bounds |
| Scenarios.RainManWrapped | frontend/src/components/unit/kinematics/labs/scenarios.js:179-185 | the man advances five times `vx * dt` and ends inside the man bounds |
| Scenarios.RainSourceDrifts | frontend/src/components/unit/kinematics/labs/scenarios.js:187-195 | the rain source drifts horizontally five times as fast |
| Scenarios.RainOthersKept | frontend/src/components/unit/kinematics/labs/scenarios.js:159-208 | bodies after the first two are touched only when they are clouds |
| Scenarios.RainInjects | frontend/src/components/unit/kinematics/labs/scenarios.js:163-174 | the injected clouds are placed around the man's old position and take part in the same cloud pass |
| Scenarios.ZeroStep | frontend/src/components/unit/kinematics/labs/scenarios.js:13-387 | a zero step leaves every scenario but rain unchanged |
| Scenarios.Additive | frontend/src/components/unit/kinematics/labs/scenarios.js:13-387 | outside rain, a step of s and then of t is one step of s + t |
| Scenarios.Init | frontend/src/components/unit/kinematics/labs/scenarios.js:7-380 | rain starts with seven bodies, every other scenario with two |
| Scenarios.InjectionMatchesInit | frontend/src/components/unit/kinematics/labs/scenarios.js:137-174 | the injected clouds sit where `init` puts them, and a fresh rain layout is never injected into |
| Scenarios.Stats | frontend/src/components/unit/kinematics/labs/scenarios.js:30-422 | river shows `Rel Velocity X`, the boat's x speed, when a boat exists. Min-distance shows `Current Distance` between bodies 0 and 1 and `Min Distance achieved`, which is `---` iff no best yet and otherwise the best distance. The others show nothing |
| Scenarios.StatsReadFirstTwo | frontend/src/components/unit/kinematics/labs/scenarios.js:30-422 | the readouts depend on the first two bodies only |
| Scenarios.StatsSteady | frontend/src/components/unit/kinematics/labs/scenarios.js:13-387 | running any scenario but min-distance leaves its readout unchanged, since no step changes a velocity |
| Scenarios.StatsDistanceMoves | frontend/src/components/unit/kinematics/labs/scenarios.js:382-420 | a min-distance step moves the current-distance reading by the relative velocity times the step and leaves the best-distance reading alone |
| Validation.Check | backend/middleware/sanitize.js:15-44 | a check contributes at most one message, none iff it passes, and only its own |
| Validation.Length | backend/middleware/sanitize.js:19 | `isLength` counts code points except variation selectors, never more than the characters |
| Validation.FirstLine | backend/middleware/sanitize.js:43 | the part of a password a lookahead can scan is a prefix containing no line terminator |
| Validation.LoginErrors | backend/middleware/sanitize.js:46-53 | a login body passes iff the identifier does not trim to empty and the password is non-empty |
| Validation.PasswordRule | backend/middleware/sanitize.js:40-43 | a password passes iff it has at least 6 counted characters and a letter and a digit before any line break |
| Validation.UsernameRule | backend/middleware/sanitize.js:28-32 | a registration username passes iff it trims to 3 to 30 letters, digits and underscores |
| Validation.FirstNameRule | backend/middleware/sanitize.js:16-20 | a registration first name passes iff it trims to 2 to 50 letters and spaces |
| Validation.LastNameRule | backend/middleware/sanitize.js:22-26 | a last name passes iff absent or it trims to at most 50 letters and spaces |
| Validation.RegisterRule | backend/middleware/sanitize.js:15-44 | a registration passes iff every field meets its rule and the address is well formed |
| Validation.DetailsRule | backend/middleware/sanitize.js:55-73 | an update passes iff every field it carries meets its rule, and absent fields are not checked |
| Validation.NewPasswordRule | backend/middleware/sanitize.js:75-90 | a password change or reset passes iff the new password is strong and, for a change, the current one is given |
| Validation.Validate | backend/middleware/sanitize.js:5-12 | no failure passes the request on. Any failure gives one 400 whose text contains every message, and a single failure gives exactly its message |
| Validation.TextsAppend | backend/middleware/sanitize.js:8 | the texts of consecutive checks are the texts of each, in order |
| Validation.ValidateInOrder | backend/middleware/sanitize.js:5-12 | the messages appear in the order of the failed checks, joined by `, ` |
| Validation.JoinContainsParts | backend/middleware/sanitize.js:8 | every part occurs in the joined text |
| Accounts.ParseRole | backend/models/User.js:37-41 | a role string the schema accepts is the name of the role it gives |
| Accounts.ParseRoleName | backend/models/User.js:37-41 | every role survives being written out and parsed back |
| Accounts.Project | backend/controllers/authController.js:113-121 | the token response's user object carries the account's id, role, username and email |
| Accounts.ProjectSplitsAccount | backend/controllers/authController.js:110-122 | the public view and the withheld part rebuild the account, and the view does not depend on the withheld part |
| Accounts.Utf16Length | backend/models/User.js:22 | `minlength` counts UTF-16 units: one per character up to U+FFFF and two above it, so text of basic-plane characters has as many units as characters, and any text has between one and two per character |
| Accounts.Utf16LengthConcat | backend/models/User.js:22 | the units of a concatenation are the units of its parts added |
| AuthController.NewAccount | backend/controllers/authController.js:14-21 | an account is created iff the requested role (`user` when absent or empty) is a schema role and the schema validators pass, and it is the account the schema builds with that role |
| AuthController.WithRole | backend/models/User.js:6-61 | an account is built iff the trimmed first name is non-empty, the trimmed lower-cased username has at least 3 UTF-16 units, the lower-cased address is non-empty and an email, and the password has at least 6 units. It stores those values, the password's hash, a trimmed last name iff one is given, the given id and role, and the defaults |
| AuthController.WithRoleIgnoresRoleField | backend/models/User.js:6-61 | the body's role field decides the role and nothing else |
| AuthController.Register | backend/controllers/authController.js:10-24 | registration creates exactly the new account, built from the body under the new id, and answers 201 with its token and public view, or refuses and changes nothing |
| AuthController.RegisterKeepsRequestedRole | backend/controllers/authController.js:11-20 | a client asking for any schema role, owner included, gets it; no or an empty role gives `user` |
| AuthController.ClientMayAskForOwner | backend/controllers/authController.js:11-21 | a body accepted without a role is accepted with `role: owner` and creates an owner |
| AuthController.Login | backend/controllers/authController.js:29-56 | a missing address or password gives 400, and an unknown address or a wrong password gives 401 `Invalid credentials`. Sign-in succeeds iff the account exists, the password matches and the account is not restricted, and then answers 200 with the token and public view. 403 comes exactly when only the restriction stands in the way. Nothing throws |
| AuthController.UnknownLikeWrongPassword | backend/controllers/authController.js:37-53 | an unknown address and a wrong password get the same reply |
| AuthController.NoEmailNoLookup | backend/controllers/authController.js:30-35 | a body without `email` gets 400 whatever else it carries |
| AuthController.CheckUsername | backend/controllers/authController.js:73-92 | a name is available iff its lower-cased form is not taken; a taken one comes with suggestions |
| AuthController.CheckUsernameIgnoresCase | backend/controllers/authController.js:73-75 | names differing only in letter case get the same answer |
| AuthController.CheckUsernameLowered | backend/controllers/authController.js:73-75 | asking again with the lower-cased name changes nothing |
| UserController.Patched | backend/controllers/userController.js:9-18 | a given field is stored trimmed (the username also lower-cased), an absent one is kept, and nothing else changes |
| UserController.UpdateDetails | backend/controllers/userController.js:8-29 | invalid fields throw before the lookup, whether or not the account exists. With valid fields an absent account gives 200 with no data, and a username another account holds throws. Only the caller's account changes, only in the three detail fields, and a refused update changes nothing |
| UserController.EmptyUpdateKeepsAccount | backend/controllers/userController.js:15-23 | an update naming no field leaves the account as it was |
| UserController.PatchedStable | backend/controllers/userController.js:9-23 | storing the stored fields again changes nothing |
| UserController.UpdatePassword | backend/controllers/userController.js:34-51 | a wrong current password gives 401. After a right one, a short new password gives 400 and a non-empty one of 6 or more units stores its hash and answers with a new token. Any other outcome changes nothing |
| UserController.UpdatePasswordTouchesOnlyPassword | backend/controllers/userController.js:47-50 | a changed password leaves every other field and account as it was |
| UserController.UpdateProfilePicture | backend/controllers/userController.js:56-71 | no file gives 400; otherwise only the picture path changes |
| UserController.LastUploadWins | backend/controllers/userController.js:56-71 | of two uploads the later decides the picture, and uploading the same file again changes nothing |
| UserController.UploadCommutesWithPasswordChange | backend/controllers/userController.js:34-71 | an upload and a password change of the same account commute, and the upload does not change the password change's reply |
| UserController.DeleteAccount | backend/controllers/userController.js:76-103 | missing password, unknown account and wrong password are refused in that order; the account goes only when all pass |
| UserController.DeleteAccountRemovesOnlyCaller | backend/controllers/userController.js:96-97 | a deletion removes exactly the caller's account |
| AdminController.Visible | backend/controllers/adminController.js:11-19 | the listing holds only accounts the caller may see, and for anyone but a manager it is the whole database |
| AdminController.VisibleSingle | backend/controllers/adminController.js:11-17 | a single account is listed iff the caller may see it |
| AdminController.VisibleAppend | backend/controllers/adminController.js:11-19 | listing two stretches of the database in turn is listing them together, so the listing keeps database order |
| AdminController.VisibleComplete | backend/controllers/adminController.js:11-17 | no account the caller may see is left out |
| AdminController.VisibleIdempotent | backend/controllers/adminController.js:11-19 | listing a listing again gives it back |
| AdminController.GetUsers | backend/controllers/adminController.js:8-26 | managers get the regular users, anyone else gets everyone, with the count |
| AdminController.GetUser | backend/controllers/adminController.js:31-47 | an unknown id gives 404 before the role is considered, and a manager asking for staff gets 403 |
| AdminController.RestrictUser | backend/controllers/adminController.js:52-71 | the same checks in the same order; on success only that account's restriction flag changes |
| AdminController.StaffShieldedFromManagers | backend/controllers/adminController.js:34-62 | the 404 does not depend on who asks, and a manager never views or restricts staff |
| AdminController.RestrictIdempotent | backend/controllers/adminController.js:64-65 | restricting twice with the same value is restricting once |
| AdminController.UpdateUserRole | backend/controllers/adminController.js:76-87 | an unknown role is refused, an unknown id gives `data: null`, a body without `role` changes nothing and answers with the account, and otherwise only that account's role changes |
| AdminController.DeleteUser | backend/controllers/adminController.js:92-99 | the account is gone afterwards and the reply is a success either way |
| AdminController.DeleteAbsentUser | backend/controllers/adminController.js:92-99 | deleting an absent id changes nothing |
| AdminRoutes.RunStages | backend/routes/adminRoutes.js:28-49 | past `protect` no request is refused as signed out. A handler reached is one of the route's stages, and a refusal by role comes from a role check that excludes the caller |
| AdminRoutes.Dispatch | backend/routes/adminRoutes.js:28 | on the router with every handler defined, a request is refused as signed out iff it carries no signed-in caller |
| AdminRoutes.RoutesShape | backend/routes/adminRoutes.js:28-49 | every route starts with its role check and ends with its handler |
| AdminRoutes.RoleTable | backend/routes/adminRoutes.js:30-49 | which routes admit managers and which admit owners only |
| AdminRoutes.RegularUsersReachNothing | backend/routes/adminRoutes.js:28-49 | a regular user reaches no handler |
| AdminRoutes.PastAuthorize | backend/routes/adminRoutes.js:31-38 | what the stages after the role check do |
| AdminRoutes.MalformedIdStops | backend/routes/adminRoutes.js:32-38 | an id check followed by `validate` stops a malformed id before the handler |
| AdminRoutes.CarriedErrorStops | backend/middleware/sanitize.js:5-12 | once a message is collected, the next `validate` stops the request with 400 |
| AdminRoutes.MalformedIdNeverReachesHandler | backend/routes/adminRoutes.js:32-38 | on every user route with an `:id`, a malformed id stops before the handler |
| AdminRoutes.ResetPasswordOrder | backend/routes/adminRoutes.js:34 | password reset runs the limiter, the id rule, the password rules and `validate`, in that order, before its handler |
| AdminRoutes.ImplementedRoutes | backend/routes/adminRoutes.js:2-16 | exactly five routes lead to a handler the controller defines |
| AdminRoutes.Mount | backend/routes/adminRoutes.js:31-49 | registering the routes succeeds iff every handler they name is defined, and otherwise stops at the first route naming an undefined one |
| AdminRoutes.FailsAt | backend/routes/adminRoutes.js:31-49 | loading fails at the first route with an undefined handler when every earlier one is defined |
| AdminRoutes.RouterNeverLoads | backend/routes/adminRoutes.js:34 | the router as written fails to load, first at the password-reset route, whose handler the controller does not define |
| AdminRoutes.CompleteRouterLoads | backend/routes/adminRoutes.js:2-49 | with every handler defined the router loads the whole table, and a regular user still reaches no handler on any route |
| Cors.AllowList | backend/server.js:28-30 | without `CLIENT_URL` the two development origins. With it, one entry per comma-separated field, each that field trimmed, so no entry has white space at either end or a comma, and the fields join back into the variable |
| Cors.ConfiguredList | backend/server.js:28-30 | a set `CLIENT_URL` gives exactly the trimmed fields of its comma split |
| Cors.CheckOrigin | backend/server.js:24-37 | a request without an origin is allowed, and one with an origin is allowed iff it is on the list |
| Cors.DefaultPolicy | backend/server.js:28-36 | without `CLIENT_URL`, exactly the two development origins pass |
| Cors.ConfiguredPolicy | backend/server.js:28-33 | listing trimmed, comma-free origins allows exactly them |
| Cors.PaddedOriginDenied | backend/server.js:28-36 | with `CLIENT_URL` set, an origin with leading or trailing white space never passes |
| Cors.MethodsHeader | backend/server.js:38 | a preflight announces GET, POST, PUT and DELETE |
| Cors.HeadersHeader | backend/server.js:39 | a preflight announces `Content-Type` and `Authorization` |
| AdminGuard.ChildPages | admin/src/router/index.ts:17-38 | every child page carries its parent's meta merged with its own |
| AdminGuard.MergeLaws | admin/src/router/index.ts:13-38 | merging meta as `Object.assign` does: an empty meta changes nothing on either side, merging is associative, merging a meta into itself gives it back, and merging the same child twice is merging it once |
| AdminGuard.Guard | admin/src/router/index.ts:43-53 | signed-out visitors of a protected page go to `/login`, signed-in visitors of a guest page go to `/`, and everyone else proceeds |
| AdminGuard.DashboardPages | admin/src/router/index.ts:13-38 | the dashboard's four child pages all inherit its protection |
| AdminGuard.TablePages | admin/src/router/index.ts:6-40 | the table gives the login page and the four protected dashboard pages |
| AdminGuard.GuardOnTable | admin/src/router/index.ts:6-53 | dashboard pages are closed to signed-out visitors and the login page to signed-in ones |
| AdminGuard.RedirectSettles | admin/src/router/index.ts:43-53 | the page a redirect leads to lets the same visitor through, so the guard never redirects twice in a row |
| AdminGuard.ProtectionFirst | admin/src/router/index.ts:46-49 | on a page marked both ways the protection test comes first |
| AdminAuthStore.Load | admin/src/stores/auth.ts:24-29 | the store starts from what storage holds, not loading and without error |
| AdminAuthStore.Init | admin/src/stores/auth.ts:74-78 | `init` sets the header from a truthy token and changes nothing else |
| AdminAuthStore.Login | admin/src/stores/auth.ts:36-66 | sign-in succeeds iff the reply is a staff account. Then user, token, storage and header are set. A non-staff reply gives the access-denied error and a failed call gives the server's message. Neither changes the session |
| AdminAuthStore.Logout | admin/src/stores/auth.ts:67-73 | memory, storage and header are all cleared |
| AdminAuthStore.LoginGrantsStaff | admin/src/stores/auth.ts:30-59 | a staff sign-in makes the store an admin, an owner iff the account is one, and authenticated iff the token is non-empty |
| AdminAuthStore.MirrorKept | admin/src/stores/auth.ts:36-73 | sign-in and sign-out keep storage and header in step with memory |
| AdminAuthStore.ReloadRestores | admin/src/stores/auth.ts:24-78 | reloading from storage and calling `init` gives back the session |
| AdminAuthStore.PanelSignInAlwaysFails | admin/src/stores/auth.ts:40-43 | the panel sends `identifier`, the backend reads `email`: panel sign-in always gets the 400 and leaves the session as it was |
| ClientAuthStore.Load | frontend/src/stores/auth.js:13-18 | the store starts from storage, and an empty stored token reads as none |
| ClientAuthStore.Init | frontend/src/stores/auth.js:149-153 | `init` sets the header from a truthy token and changes nothing else |
| ClientAuthStore.SetAuth | frontend/src/stores/auth.js:65-71 | user and token from the reply go to memory, storage and header |
| ClientAuthStore.Logout | frontend/src/stores/auth.js:57-63 | memory, storage and header are all cleared |
| ClientAuthStore.SignIn | frontend/src/stores/auth.js:27-55 | success stores the session and clears the error. Failure keeps the session and records and rethrows the server's `error` or the fallback |
| ClientAuthStore.Register | frontend/src/stores/auth.js:27-40 | a failed registration rethrows the server's `error` or `Registration failed` |
| ClientAuthStore.Login | frontend/src/stores/auth.js:42-55 | a failed sign-in rethrows the server's `error` or `Login failed` |
| ClientAuthStore.ReplaceUser | frontend/src/stores/auth.js:73-131 | a returned document becomes the user in memory and storage, the token is untouched, and a failure keeps the user |
| ClientAuthStore.UpdateProfile | frontend/src/stores/auth.js:73-87 | a failed update rethrows the server's `error` or its own fallback |
| ClientAuthStore.UploadProfilePicture | frontend/src/stores/auth.js:109-131 | a failed upload rethrows the server's `error` or its own fallback |
| ClientAuthStore.ChangePassword | frontend/src/stores/auth.js:89-107 | a truthy returned token replaces the token in memory, storage and header; the user is never touched |
| ClientAuthStore.DeleteAccount | frontend/src/stores/auth.js:133-146 | success signs out; failure changes no session field and rethrows |
| ClientAuthStore.SessionActionsKeepMirror | frontend/src/stores/auth.js:27-71 | sign-in, sign-out and deletion keep storage and header in step with memory |
| ClientAuthStore.AccountActionsKeepMirror | frontend/src/stores/auth.js:73-131 | profile, picture and password changes keep the mirror too |
| ClientAuthStore.ReloadRestores | frontend/src/stores/auth.js:13-18 | reloading and `init` give back the session when the token is non-empty |
| ClientAuthStore.SignInForgetsPast | frontend/src/stores/auth.js:42-71 | signing in after a sign-out reaches the same session whatever came before |
| AdminLists.Fetch | frontend/src/stores/admin.js:15-36 | a reply replaces that list only. A failure keeps it and records the server's message or the fallback. Loading ends either way |
| AdminLists.FindIndex | admin/src/stores/admin.ts:94 | the position found holds the id and no earlier one does; none is found iff no document has it |
| AdminLists.ReplaceFirst | admin/src/stores/admin.ts:94-97 | the list keeps its length; the first document with the id is replaced by the new one, every other position keeps its document, and without a match the list is unchanged |
| AdminLists.ReplaceFirstIdempotent | frontend/src/stores/admin.js:52-55 | replacing again with the same document is replacing once |
| AdminLists.ToggleUserRestriction | frontend/src/stores/admin.js:37-46 | on success the first user with the id gets the requested flag. On failure the lists stay and the error is recorded. The result says which |
| AdminLists.RestrictionRoundTrip | admin/src/stores/admin.ts:79-88 | setting a flag twice is setting it once, and setting it back restores the list |
| AdminLists.ToggleDoc | admin/src/stores/admin.ts:90-102 | on success the first document with the id is replaced by the returned one; on failure the lists stay |
| AdminLists.Sync | frontend/src/stores/admin.js:62-70 | an accepted sync re-fetches the list; a refused one records the error and keeps the lists |
| AdminLists.AutoDiscover | frontend/src/stores/admin.js:72-80 | no list changes; a failure records the error |
| AdminLists.SyncShowsServerList | admin/src/stores/admin.ts:139-147 | a sync whose re-fetch succeeds shows exactly the server's list |
| AdminLists.LoadingSettles | admin/src/stores/admin.ts:114-124 | loading is over after every fetch and every accepted sync |

## Left out

- Database, file system, clock and network access. Each is replaced by its effect on a `map` or `seq`, or by a parameter: the folder listing, the stored records, the reply a store receives.
- Password hashing and comparison, JWT signing, `validator.isEmail`, `isMongoId` and the username suggester are function parameters, not reimplementations. `normalizeEmail` is not applied to the stored address.
- `toLowerCase` is modelled for ASCII letters only. Non-ASCII case mappings are not modelled.
- AutoSyncSimulations.DropFirst: it drops the first character of a name, while `substring(1)` drops one UTF-16 unit. For a file name starting above U+FFFF the source keeps a lone surrogate, which the model does not.
- `backend/middleware/xssClean.js` is not part of this model. `backend/server.js` mounts the `express-mongo-sanitize` package, while the model follows the project's own `mongoSanitize.js`.
- The sign-in check `protect`, the role check `authorize` and the error middleware are not part of this model. The router model uses only their decisions, and a failure's body is a parameter.
- `adminRoutes.js` imports eight handlers that `adminController.js` does not define, so the router as written never loads (see Findings). The routes and the dispatch proofs describe the router as evidently intended, with every handler defined; the eight missing handlers themselves are not modelled as operations.
- The rate limiter is a yes/no verdict per request. Its counting window is not modelled.
- `getMe`, the cookie options that `sendTokenResponse` builds and never sends, `lastLogin`, `loginCount`, `createdAt` and `updatedAt` are not modelled. Neither is the `deletedCount` that `cleanAndSync.js` only logs.
- Body fields are strings or absent. A number or object sent where a string is expected is not modelled, and `isRestricted` is taken to be a boolean.
- The schema setters (`trim`, `lowercase`) are taken to run on `findByIdAndUpdate` as on `save`, following the model's setter declarations.
- Canvas drawing, `requestAnimationFrame`, `Math.random`, `Math.sqrt` and `toFixed` are not modelled. `Scenarios.Stats` shows a distance by its components, and `Scenarios.Init` takes cosine and sine as a parameter.
- A rain step with `dt = 0` is not a no-op in the code (clouds are injected and positions wrap), and the model follows the code. That is why `ZeroStep` and `Additive` exclude rain.
- A cloud's vertical speed is `undefined` in the code and never read; the model uses 0.
- Scenarios.RainStep: its own contract states only the length; the rain lemmas above state what happens to each body.
- Scenarios.Update: its own contract states only that a non-rain step keeps the number of bodies; `ZeroStep`, `Additive` and the per-scenario step functions state the rest.
- Scenarios.Init: its contract states only how many bodies each scenario starts with; the exact rain layout is tied to the cloud injection by `InjectionMatchesInit`.
- AutoSyncSimulations.SimulationId: its contract states only that no capital survives; `IdIsKebabName` and `LowercaseStartIsLost` fix the id for both kinds of base.
- SyncFromFrontend.Category: its contract states only that the category is in the enum; `CategoryIsFirstMatch` and `RulesFire` fix which one.
- CleanAndSync.Category: likewise, with `CleanAndSync.CategoryIsFirstMatch` and `CleanAndSync.RulesFire`.
- MongoSanitize.Middleware: `req.query` is modelled as a mutable object that the in-place refill changes. Under Express 5, `req.query` is a getter that parses the URL again on each read, and the refill would not last; the Express version is not fixed in the sources.
- MongoSanitize.Sanitize: an own `__proto__` member is dropped, as the assignment into `{}` creates no member. The prototype that assignment sets, and the values later reads find through it, are not modelled.
- AutoSyncSimulations.AutoSync: it requires that the stored records already passed the schema (a non-blank id and a name), as every write through the schema does. The `trim` setter on `simulationId` is not applied to the key, so an id with white space at either end is stored and looked up untrimmed; only an all-white-space id is refused.
- AutoSyncSimulations.AutoSync: the listing printed after a successful run and the `process.exit` codes are not modelled; failure is the `ok` result.
- AdminController.UpdateUserRole: a body without `role` is modelled as an update with no field, as Mongoose does when it strips undefined keys from an update. A version that writes `role: null` instead is not modelled; the version is not fixed in the sources.
- Every store action is one atomic transition from the state before the request to the state after the reply. Interleavings of overlapping requests, such as two fetches sharing `loading`, are not modelled.

## Findings

| source | as written | input that shows it | evidently intended | confidence | as-written member | corrected member |
|---|---|---|---|---|---|---|
| backend/routes/adminRoutes.js:34 | the router registers handlers that `adminController.js` does not export; `resetUserPassword` is undefined, and `router.put` throws on a non-function handler while the module loads | loading the backend, which requires the router at `backend/server.js:91` | every handler the router names is exported by the controller, so the table loads and dispatches | not executed | AdminRoutes.RouterNeverLoads | AdminRoutes.CompleteRouterLoads |
