# Waltz: application audit trail, flow direction, org-unit tree toggle, static panels

A Dafny model of four small pieces of the Waltz enterprise-architecture web application:

- **Application endpoint** (`application_endpoint.dfy`, module `ApplicationEndpoint`).
  - The update handler reads the application's id first and fails when there is none. Otherwise it writes one change-log entry per requested field change, in request order. Each entry has severity INFORMATION, the requesting user and a reference to the application. Then it updates the application, its tags and its aliases, in that order, and answers `true`.
  - The registration handler calls `registerApp` first. It then writes exactly one entry, "Registered new application: " followed by the name, addressed to the new id, and returns the response.
  - The by-ids query answers an empty id list with the empty list and makes no service call.
  - The application and change-log services are a class `Services`. Its ghost state is the append-only change log and the trace of every call made to the services. Its invariant is that the log holds exactly the entries written in the trace.
- **Logical-flow direction** (`logical_flow_utils.dfy`, module `LogicalFlowUtils`).
  - A flow is INBOUND to an anchor entity when its target is the anchor. Otherwise it is OUTBOUND when its source is the anchor, and NEITHER when it does not involve the anchor.
  - `DetermineStatMethod` picks the data-type usage statistics for kind `DATA_TYPE` and the logical-flow statistics for every other kind.
- **Org-unit tree** (`org_unit_tree.dfy`, module `OrgUnitTree`).
  - The controller class keeps `expandedNodes`. Selecting a node that has children appends it when no node with its id is in the list. Otherwise it removes the first node with that id.
  - Every selection is passed to `onSelection` when that callback is bound.
  - The tree's node equality compares ids. Each `has…Apps` guard tests whether its count is present and positive.
- **StaticPanel** (`static_panel.dfy`, module `StaticPanel`).
  - An immutable value with mandatory `title`, `icon`, `group`, `content` and `priority`.
  - `width` defaults to 12 and `kind` to HTML.
  - `Build` models its builder. It takes every attribute as an optional input and either returns the panel or fails, naming the missing mandatory attributes.

`wrappers.dfy` holds the shared `Option` and `Result` datatypes.

Two points about the code:
- An update whose application has no id fails with `NoSuchElement`, which is what `Optional.get()` throws. It does not fail with a dedicated not-found error.
- An update writes exactly N entries for N changes. It does not write N + 1.

## Model

| member | source | states |
|---|---|---|
| `ApplicationEndpoint.ApplicationEndpoint.HandleAppUpdate` | waltz-web/src/main/java/com/khartec/waltz/web/endpoints/api/ApplicationEndpoint.java:87-111 | With no application id: fails with `NoSuchElement` and makes no service call. Otherwise: the calls appended to the trace are exactly `UpdateCalls`, the log grows by exactly the per-change entries, and the answer is `true`. |
| `ApplicationEndpoint.ApplicationEndpoint.HandleAppRegistration` | waltz-web/src/main/java/com/khartec/waltz/web/endpoints/api/ApplicationEndpoint.java:119-140 | `registerApp` is always called first. If it threw, or its response has no id, the handler fails and writes nothing. Otherwise the log grows by exactly the registration entry for the new id, and the response is returned. |
| `ApplicationEndpoint.ApplicationEndpoint.FindByIdsRoute` | waltz-web/src/main/java/com/khartec/waltz/web/endpoints/api/ApplicationEndpoint.java:167-174 | An empty id list gives the empty list and leaves the trace unchanged. A non-empty list makes one `findByIds` call and returns its answer. The log never changes. |
| `ApplicationEndpoint.ApplicationEndpoint.constructor` | waltz-web/src/main/java/com/khartec/waltz/web/endpoints/api/ApplicationEndpoint.java:68-76 | The endpoint keeps the services it is given. |
| `ApplicationEndpoint.Services.WriteEntry` | waltz-web/src/main/java/com/khartec/waltz/web/endpoints/api/ApplicationEndpoint.java:95 | A write appends the entry to the log and a write call to the trace. Everything already in the log stays. |
| `ApplicationEndpoint.Services.Record` | waltz-web/src/main/java/com/khartec/waltz/web/endpoints/api/ApplicationEndpoint.java:107-109 | A call other than a write appends to the trace and leaves the log as it was. |
| `ApplicationEndpoint.Services.constructor` | waltz-web/src/main/java/com/khartec/waltz/web/endpoints/api/ApplicationEndpoint.java:64-65 | The services start with an empty log and an empty trace. |
| `ApplicationEndpoint.ChangeEntries` | waltz-web/src/main/java/com/khartec/waltz/web/endpoints/api/ApplicationEndpoint.java:95-104 | There is exactly one entry per requested change. |
| `ApplicationEndpoint.ChangeEntriesSpec` | waltz-web/src/main/java/com/khartec/waltz/web/endpoints/api/ApplicationEndpoint.java:95-104 | Entry i describes change i, has severity INFORMATION, carries the user's name and references APPLICATION with the application's id. |
| `ApplicationEndpoint.UpdateCallsOrder` | waltz-web/src/main/java/com/khartec/waltz/web/endpoints/api/ApplicationEndpoint.java:95-111 | For N changes an update makes N + 3 calls. The N writes come first, in change order. Then `update`, `updateTags` and `updateAliases` follow, once each. What the update writes is exactly the change entries. |
| `ApplicationEndpoint.RegistrationWritesOnce` | waltz-web/src/main/java/com/khartec/waltz/web/endpoints/api/ApplicationEndpoint.java:126-138 | Registration calls `registerApp` first. It writes the one entry "Registered new application: " + name, addressed to the new id, exactly when `registerApp` answered with an id. Otherwise it writes nothing. |
| `ApplicationEndpoint.WrittenAppend` | waltz-web/src/main/java/com/khartec/waltz/web/endpoints/api/ApplicationEndpoint.java:95-111 | The log written by two consecutive call sequences is the first one's entries followed by the second one's. This is what makes the log append-only. |
| `ApplicationEndpoint.WritesSpec` | waltz-web/src/main/java/com/khartec/waltz/web/endpoints/api/ApplicationEndpoint.java:95 | Writing a list of entries one by one logs exactly that list. |
| `LogicalFlowUtils.CategorizeDirection` | waltz-ng/client/logical-flow/logical-flow-utils.js:68-72 | INBOUND iff the target is the anchor. OUTBOUND iff the target is not the anchor and the source is. NEITHER iff neither end is the anchor. |
| `LogicalFlowUtils.SelfLoopIsInbound` | waltz-ng/client/logical-flow/logical-flow-utils.js:69-70 | A flow from the anchor to itself is INBOUND, because the inbound test comes first. |
| `LogicalFlowUtils.TestsReadOneEnd` | waltz-ng/client/logical-flow/logical-flow-utils.js:37-56 | The inbound test depends only on the flow's target. The outbound test depends only on its source. |
| `LogicalFlowUtils.ReversalSwapsDirection` | waltz-ng/client/logical-flow/logical-flow-utils.js:68-72 | Reversing a flow that is not a self-loop on the anchor turns INBOUND into OUTBOUND and OUTBOUND into INBOUND, and keeps NEITHER. |
| `LogicalFlowUtils.DetermineStatMethod` | waltz-ng/client/logical-flow/logical-flow-utils.js:82-86 | The data-type usage statistics are chosen iff the kind is exactly `DATA_TYPE`. Every other kind gets the logical-flow statistics. |
| `OrgUnitTree.EqualityIsEquivalence` | waltz-ng/client/org-units/directives/org-unit-tree.js:30 | Node equality is false when a node is missing. On present nodes it is reflexive, symmetric and transitive, and agrees with id equality. |
| `OrgUnitTree.CountPositive` | waltz-ng/client/org-units/directives/org-unit-tree.js:45-51 | `count && count > 0` holds iff the count is present and positive. The truthiness test adds nothing to the comparison. |
| `OrgUnitTree.AppGuards` | waltz-ng/client/org-units/directives/org-unit-tree.js:45-51 | Each of the six `has…Apps` guards holds iff its own count field is present and greater than zero. |
| `OrgUnitTree.FirstIndexOf` | waltz-ng/client/org-units/directives/org-unit-tree.js:35 | Returns -1 iff no node has the id. Otherwise it returns a position holding the id with no earlier position holding it. |
| `OrgUnitTree.FindIndex` | waltz-ng/client/org-units/directives/org-unit-tree.js:35 | The left-to-right search returns the first position whose node has the id, or -1. |
| `OrgUnitTree.ToggleLeafUnchanged` | waltz-ng/client/org-units/directives/org-unit-tree.js:34 | Selecting a node whose `children` is missing or empty leaves the expanded list unchanged. |
| `OrgUnitTree.ToggleAbsentAppends` | waltz-ng/client/org-units/directives/org-unit-tree.js:35-37 | Selecting an expandable node whose id is absent appends it. The length grows by one and the earlier elements are unchanged. |
| `OrgUnitTree.TogglePresentRemovesFirst` | waltz-ng/client/org-units/directives/org-unit-tree.js:35-40 | Selecting an expandable node whose id is present removes exactly the first node with that id. The other nodes keep their relative order. |
| `OrgUnitTree.ToggleKeepsDistinct` | waltz-ng/client/org-units/directives/org-unit-tree.js:35-37 | If the expanded ids were distinct before a selection, they are still distinct after it. |
| `OrgUnitTree.ToggleTwiceRestores` | waltz-ng/client/org-units/directives/org-unit-tree.js:35-40 | Selecting the same expandable node twice, starting with its id absent, restores the list exactly. |
| `OrgUnitTree.OrgUnitTreeController.OnNodeSelect` | waltz-ng/client/org-units/directives/org-unit-tree.js:33-43 | The new `expandedNodes` is the toggle of the old one. `onSelection` is tested on each call: if it is a function at that moment, it receives the node, whether or not the list changed. |
| `OrgUnitTree.OrgUnitTreeController.BindOnSelection` | waltz-ng/client/org-units/directives/org-unit-tree.js:16-18 | The parent may bind or rebind `onSelection` at any time. Whether it is now a function becomes the given value, and the expanded list and the notifications so far are unchanged. |
| `OrgUnitTree.OrgUnitTreeController.constructor` | waltz-ng/client/org-units/directives/org-unit-tree.js:22-25 | A new controller starts with no expanded nodes and no notifications. |
| `StaticPanel.Build` | waltz-model/src/main/java/com/khartec/waltz/model/staticpanel/StaticPanel.java:31-46 | Fails iff a mandatory attribute is missing, and then names exactly the missing ones. On success every accessor returns what was supplied, `width` is 12 when not supplied, and `kind` is HTML when not supplied. |
| `StaticPanel.Missing` | waltz-model/src/main/java/com/khartec/waltz/model/staticpanel/StaticPanel.java:31-36 | Lists exactly the mandatory attributes that were not supplied. It is empty iff all five are present. |
| `StaticPanel.MandatoryAttributeRequired` | waltz-model/src/main/java/com/khartec/waltz/model/staticpanel/StaticPanel.java:31-36 | Leaving out any one of `title`, `icon`, `group`, `content` or `priority` makes construction fail, and the failure names it. |
| `StaticPanel.OmittedEqualsDefault` | waltz-model/src/main/java/com/khartec/waltz/model/staticpanel/StaticPanel.java:38-46 | Omitting `width` builds the same result as supplying 12. Omitting `kind` builds the same result as supplying HTML. |
| `StaticPanel.BuildToInputRoundTrip` | waltz-model/src/main/java/com/khartec/waltz/model/staticpanel/StaticPanel.java:26-29 | Writing a panel out with all its attributes and building it back gives the same panel. |
| `StaticPanel.ToInput` | waltz-model/src/main/java/com/khartec/waltz/model/staticpanel/StaticPanel.java:26-29 | A panel's full form supplies every mandatory attribute. |

## Left out

- ApplicationEndpoint.ApplicationEndpoint.HandleAppUpdate: assumes every service call returns normally. A persistence failure part-way through the change-log loop would leave a partial log and then propagate; that case is not modelled.
- ApplicationEndpoint.ApplicationEndpoint.HandleAppRegistration: a persistence failure of the change-log write after a successful registration is not modelled.
- The other query routes are left out: search, tally by org unit, by org unit, by org-unit tree, related, by id, all tags and by tag. Each one makes a single call to the application service and returns its answer, and those services' internals are foreign code.
- Route registration and URL paths, JSON body reading, setting the response type, and logging are web plumbing and are not modelled.
- The session user is a parameter (`userName`), because session extraction is framework code.
- `FieldChange.toDescription` is a parameter (`describe`), because its class is not part of this model.
- What `registerApp` and `findByIds` answer is a parameter (`answer`), because their internals are foreign code. For registration, `None` means `registerApp` threw.
- `AppChangeAction`, `Application`, `AppRegistrationRequest` and `AppRegistrationResponse` carry only the fields the handlers read. Their other fields are not part of this model.
- A by-ids body that is JSON `null`, which `ListUtilities.isEmpty` would treat as empty, is not modelled. The id list is always a list.
- Whether the update's writes and updates form one transaction is decided by the persistence layer, which is not part of this model.
- `sameRef` is modelled as equality of kind and id. `checkIsLogicalFlow` and `checkIsEntityRef` need no precondition, because the datatypes `LogicalFlow` and `EntityRef` always carry both ends and both fields.
- The `CORE_API` store methods are modelled as the two constants of `StatMethod`.
- The `onSelection` callback is recorded in a ghost trace of the nodes it received. What it does is not modelled.
- JavaScript values outside the model's types are not modelled: a non-array `children`, a missing node id, or a non-numeric count.
- The tree's rendering, HTML template and directive configuration are not modelled.
- Org-unit index wiring, the capabilities list view and the data-type service are framework configuration or async wrappers around stores, and are not modelled.
- The generated builder and JSON code for `StaticPanel` are not modelled. Absent and `null` attributes are both `None`.
- `ContentKind` is not part of this model, so only its `HTML` and `MARKDOWN` constants are modelled.
- Java's 32-bit `int` (`priority`, `width`) and 64-bit `long` (ids) are unbounded integers in the model. No arithmetic is done on them, so wrap-around cannot arise.
