# Stalker status capability — a Dafny model

Stalker is a production asset management system. Its persisted domain entities (projects,
assets, and so on) can carry a **status capability** (`StatusMixin`). An entity with it holds
a `status_list`: an ordered list of `Status(name, code)` values, tagged with the entity type it
is meant for. It also holds a current `status` taken from that list. The capability checks
every assignment of both attributes. When an entity is built without a `status_list`, it
falls back on the list persisted for its type.

Stalker's tests for the capability (tests/mixins/test_statusMixin.py,
tests/models/test_project_user.py) fix its behaviour; the model states what they assert:

- `errors.dfy` (`Errors`): the two exception kinds (`TypeError`, `ValueError`) and the
  `Result`/`Outcome`/`Option` wrappers that replace raising.
- `statuses.dfy` (`Statuses`): `Status` and `StatusList` values, and how a `status` argument is
  resolved against a list. The argument may be None, an integer index, a `Status`, or anything else.
- `registry.dfy` (`Registry`): the persisted lists as a sequence in the order they were
  persisted. A query for an entity type returns the first list targeting that type.
- `status_mixin.dfy` (`StatusMixin`): validating `status_list`; what construction yields
  (`Construct`); and the entity as a class, `StatusEntity`, whose `status_list`/`status`
  setters update its fields in place.
- `project_user.dfy` (`ProjectUsers`): the `ProjectUser(project, user, role)` association. Its
  role check has an exact TypeError message. Creating one adds the user to the project's users.
  A `Project` carries the status capability for entity type `"Project"`.
- `scenarios.dfy` (`Scenarios`): client methods that replay the tests' situations against the
  contracts above.

Python's dynamically typed arguments become sum types. `StatusArg` is `NoStatus | Index(i) |
Value(s) | NotAStatus`. `ListValue` is `NoList | List(l) | NotAStatusList`. A constructor
argument is `ListArg = Omitted | Passed(v)`. For `role`, a `RoleArg` carries the Python type name
of a wrong value, for use in the message. A raised exception becomes an `Err`/`Fail` result
naming its kind. The persisted storage becomes a `store` parameter.

Design decisions where the tests leave room:

- `status_list=None` is a TypeError both at construction and when assigned. Only an omitted
  argument consults the store. A looser reading treats None at construction like omission.
  The tests cannot tell the two apart, because they pass None only when no list is
  persisted for the type.
- A status list's target type matches an entity when it equals the entity's class name exactly.
- A `StatusList` always has at least one status (the subset type `Statuses.StatusList`), so
  `status=None` always has a first status to pick.

## Model

| member | source | states |
|---|---|---|
| `Statuses.ResolveStatus` | tests/mixins/test_statusMixin.py:172-272 | None selects the first status. An index selects `statuses[i]` when `0 <= i < len`; the index `len`, `-1` and every other out-of-range index raise ValueError. A Status that is a member is stored as is; a non-member raises ValueError. Every other kind of argument raises TypeError. What is accepted is always a Status of the list. |
| `Statuses.ReassignIsIdempotent` | tests/mixins/test_statusMixin.py:254-272 | The status read back (always a Status, never an index) can be assigned again and selects itself. |
| `Statuses.IndexOfSelects` | tests/mixins/test_statusMixin.py:243-259 | Every status of a list can be selected by its position and by value, with the same result. |
| `Statuses.IndexAndValueAgree` | tests/mixins/test_statusMixin.py:243-252 | For an in-range index `i`, assigning `i` and assigning `statuses[i]` give the same outcome. |
| `Registry.Lookup` | tests/mixins/test_statusMixin.py:342-405 | The store query finds nothing exactly when no persisted list targets the type. Otherwise it returns the first persisted list that targets the type. |
| `Registry.LookupAfterPersist` | tests/mixins/test_statusMixin.py:349-374 | Persisting a list: a type that already had a list keeps it. A type that had none finds the new list if the list targets it. Every other type finds what it found before. |
| `Registry.LookupIgnoresOtherTypes` | tests/mixins/test_statusMixin.py:377-405 | Lists persisted for other entity types never answer a type's query. |
| `StatusMixin.ValidateStatusList` | tests/mixins/test_statusMixin.py:99-170 | An explicit `status_list` is accepted exactly when it is a StatusList whose target type is the entity's class name, and it is then adopted unchanged. None, non-lists and lists for another type all raise TypeError. |
| `StatusMixin.ResolveListArg` | tests/mixins/test_statusMixin.py:83-133 | The list a new entity adopts always targets its type. A passed list goes through the same check as assignment. An omitted list succeeds exactly when the store has a list for the type, and is then the store's first such list. Every failure is a TypeError. |
| `StatusMixin.Construct` | tests/mixins/test_statusMixin.py:23-25 | Construction validates the list first, then the status against it. It succeeds exactly when both are accepted, and yields an entity whose status is in its list and whose list targets its type. A bad list is a TypeError whatever the status argument. With an accepted list, a refused status raises the error `ResolveStatus` gives: ValueError for an out-of-range index or a non-member Status, TypeError for any other kind. Only an index or a Status can cause a ValueError. |
| `StatusMixin.Create` | tests/mixins/test_statusMixin.py:66-76 | Builds a fresh `StatusEntity` with exactly the list and status `Construct` yields, or reports its error. |
| `StatusMixin.StatusEntity.SetStatusList` | tests/mixins/test_statusMixin.py:99-170 | Assigning `status_list` succeeds exactly when `ValidateStatusList` accepts the value, and then installs it. Otherwise it raises TypeError. The list always targets the entity's type. |
| `StatusMixin.StatusEntity.SetStatus` | tests/mixins/test_statusMixin.py:180-272 | Assigning `status` follows `ResolveStatus` on the current list: it stores the resolved Status, which is then in the list, or raises the same error. The list is untouched. |
| `StatusMixin.ConstructRefusesNonList` | tests/mixins/test_statusMixin.py:83-97 | Passing an int, a string, a float, None or a list for another type to the constructor raises TypeError, whatever the status argument. |
| `StatusMixin.ConstructFallsBackOnStore` | tests/mixins/test_statusMixin.py:128-374 | Omitting `status_list` with no list persisted for the type raises TypeError. With one persisted, the entity adopts the first such list and its first status. |
| `StatusMixin.PersistEnablesFallback` | tests/mixins/test_statusMixin.py:342-374 | After a list for type T is persisted (none being there before), building a T without a list behaves as if that list were passed. |
| `StatusMixin.PersistLeavesOtherTypes` | tests/mixins/test_statusMixin.py:377-405 | Whatever is already persisted, persisting a list for type T leaves building any other type without a list as it was. |
| `ProjectUsers.ValidateRole` | tests/models/test_project_user.py:78-93 | The role is accepted exactly when it is a Role. Otherwise a TypeError is raised whose message is `ProjectUser.role should be a stalker.models.auth.Role instance, not ` followed by the received type's name. |
| `ProjectUsers.RoleMessageNamesType` | tests/models/test_project_user.py:89-93 | The message determines the type name it reports. |
| `ProjectUsers.Project.Users` | tests/models/test_project_user.py:76 | The project's users are exactly the users of the associations made with it. |
| `ProjectUsers.NewProject` | tests/models/test_project_user.py:54-60 | A Project gets the status capability for type `"Project"`. A list targeting `"Project"` is accepted, and the project starts with no members. |
| `ProjectUsers.NewProjectUser` | tests/models/test_project_user.py:67-93 | A valid Role creates a fresh association with the given project, user and role. The association is appended to the project, so the user is one of its users and earlier users remain. Any other role raises the TypeError of `ValidateRole` and adds nothing. |

## Left out

- The object-relational mapping (tables, columns, polymorphic identities, reconstructors),
  `db.setup()`, the session and the transaction manager: persistence is the `store` parameter,
  and persisting a list is appending it.
- A `target_entity_type` given as a class object: it is taken to be the class's name.
- Matching a list's target type through the class hierarchy: only the exact class name is modelled.
- Object identity: `Status`, `StatusList`, `User` and `Role` are values, so two records with the
  same fields are equal. Stalker's own equality for these entities is not part of this model.
- The fields of Repository, User, Role and SimpleEntity other than those above (name, email,
  password and so on), and the validation done by the `StatusList` constructor beyond non-emptiness.
- `StatusMixin.StatusEntity.SetStatusList`: does not state what happens to `status` when the list is replaced, because no test constrains it.
- `StatusMixin.StatusEntity.SetStatus`: does not state the entity's state after a refused assignment, because no test asserts that a failed assignment leaves it unchanged; `SetStatusList` likewise.
- The messages of the status capability's exceptions: only their kinds are modelled.
- Python's `bool` being an `int`: `True`/`False` are not modelled as indices.
- The unit-test scaffolding (set-up and tear-down).
