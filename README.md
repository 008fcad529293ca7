# Proposal discovery, ipset arguments and the service registry

A Dafny model of three pieces of a decentralised VPN node:

- **Discovery** (`discovery.dfy`): the proposal finder. `GetProposal` looks a
  service proposal up by its unique ID in the storage's snapshot; the first
  match in snapshot order wins, and a miss is "no proposal, no error".
  `FindProposals` keeps, in snapshot order, the proposals that pass every enabled
  predicate (provider, service type, location, access policy). A predicate is
  disabled when its filter field is the zero value. The access-policy predicate
  is a loop over the proposal's policies that carries a mutable flag and stops
  early. It is modelled as that loop and proved equal to a declarative predicate:
  the filter names an ID, and some policy has that ID and, if the filter names a
  source, that source. A proposal with a nil policy list never passes it.
- **Ipset** (`ipset.dfy`, with `strconv.dfy`): builders of the argument lists
  passed to the ipset tool (`version`, `create`, `destroy`, `add`, `del`). Each
  list is proved to decode back into its operation by `ParseOp`. That parser is
  the partner definition of the builders, not part of the source. `Itoa` is
  given as decimal text, with a parser proved to be its inverse.
- **Service** (`service.dfy`): the registry, a class whose map field goes from a
  service type to a factory. `Register` overwrites an entry; `Create` reports an
  unsupported-type error for an unknown type and otherwise returns what the
  stored factory returns. Factories are function values and are not interpreted.

The snapshot returned by the proposal storage is a parameter of each finder
query. Go's nil `error` results are `None` of an `Option`, and the model proves
they are always `None` for the finder.

Consequences of the code that the model keeps:

- The finder returns its results in snapshot order (`KeptIsSubsequence`).
- With an access-policy ID set, the flag is recomputed from each policy's ID,
  so nothing carries between policies. With no ID it starts false and is only
  ANDed, so the predicate is always false. Any filter that names a policy source
  but no ID therefore finds nothing (`SourceOnlyPolicyFilterKeepsNothing`).
- The two-policy case `[p1/x, p2/y]` with filter `p1/y` is rejected
  (`TwoPolicyCarryCase`).
- A proposal whose policy list is nil fails the access-policy predicate. The
  comment in the source just above that check (core/discovery/finder.go:86) says
  such proposals accept all access lists, but the code returns false, and the
  model follows the code (`NilPoliciesExcluded`).

## Model

| member | source | states |
|---|---|---|
| `Discovery.GetProposal` | core/discovery/finder.go:35-43 | the error is nil; a found proposal is the first of the snapshot with that ID and none before it has it; nothing is found iff no proposal has the ID; with distinct IDs every proposal is found by its own ID |
| `Discovery.FilterByLocation` | core/discovery/finder.go:72-79 | passes iff the filter's node type is empty or equals the proposal location's node type |
| `Discovery.FilterByAccessPolicy` | core/discovery/finder.go:85-104 | the flag-carrying loop with early stop equals "the filter ID is set and some policy has that ID and, if a source is set, that source"; false for a nil list, for an empty list and whenever the filter ID is empty |
| `Discovery.FindProposals` | core/discovery/finder.go:46-66 | the error is nil and the result is exactly the snapshot's proposals that pass every enabled predicate, in snapshot order |
| `Discovery.KeptAppend` | core/discovery/finder.go:48-63 | one more proposal in the snapshot appends it to the result iff it passes the filter |
| `Discovery.KeptIsSubsequence` | core/discovery/finder.go:47-65 | the result is a subsequence of the snapshot, so snapshot order is kept |
| `Discovery.KeptMembership` | core/discovery/finder.go:50-63 | a proposal is in the result iff it is in the snapshot and passes all four enabled predicates |
| `Discovery.KeptAllZero` | core/discovery/finder.go:50-63 | with an all-zero filter the result is the whole snapshot |
| `Discovery.ProviderOnlyFilter` | core/discovery/finder.go:50-52 | a filter on the provider alone keeps exactly the proposals of that provider |
| `Discovery.NilPoliciesExcluded` | core/discovery/finder.go:59-89 | a proposal with a nil policy list is never found once an access-policy ID or source is given |
| `Discovery.SourceOnlyPolicyFilterKeepsNothing` | core/discovery/finder.go:91-98 | an access-policy filter with a source but no ID finds nothing |
| `Discovery.EmptyNodeTypePassesAll` | core/discovery/finder.go:56-79 | a non-zero location filter with empty node type gives the same result as no location filter |
| `Discovery.ZeroFiltersSwitchOff` | core/discovery/finder.go:68-83 | `EmptyFilterLocation` and `EmptyFilterAccessPolicy` are the zero values (every field empty); `FindProposals` compares a filter's location and access-policy parts with them, and a filter whose parts equal them is decided by the provider and service-type predicates alone |
| `Discovery.TwoPolicyCarryCase` | core/discovery/finder.go:91-103 | policies p1/x, p2/y: filter p1/y rejects, filters p1 and p2/y accept |
| `Strconv.NatToDecimal` | firewall/ipset/operations.go:43-46 | the decimal text is non-empty, all digits and has no leading zero |
| `Strconv.Itoa` | firewall/ipset/operations.go:43-46 | the decimal text of the ones count and of the hash size is non-empty and starts with a minus sign iff the number is negative |
| `Strconv.ItoaRoundTrip` | firewall/ipset/operations.go:43-46 | parsing the text Itoa writes gives back the number |
| `Ipset.HashIPCreate` | firewall/ipset/operations.go:28-40 | the `SetTypeHashIP` constant is the text "hash:ip", and a create of that type with no mask and size 0 decodes back to that create |
| `Ipset.OpVersion` | firewall/ipset/operations.go:34-36 | exactly the one argument "version", which decodes to the version operation |
| `Ipset.OpSetCreate` | firewall/ipset/operations.go:39-49 | starts with create, name, type; then the netmask pair iff a mask is given, then the hashsize pair iff the size is not 0; length 3, 5 or 7; decodes back to the same create operation |
| `Ipset.OpSetDelete` | firewall/ipset/operations.go:52-54 | exactly destroy and the name, which decodes to the same delete operation |
| `Ipset.OpSetIPAdd` | firewall/ipset/operations.go:57-59 | exactly add, the name and the IP text, which decodes to the same add operation |
| `Ipset.OpSetIPRemove` | firewall/ipset/operations.go:62-64 | exactly del, the name and the IP text, which decodes to the same remove operation |
| `Service.Registry.constructor` | core/service/registry.go:26-30 | a new registry has an empty factory table |
| `Service.Registry.Register` | core/service/registry.go:33-35 | the table maps the type to the new factory, replacing any earlier one, and every other entry is unchanged |
| `Service.Registry.Create` | core/service/registry.go:38-45 | an unregistered type gives no service and the unsupported-type error; a registered one gives exactly what its factory returns for the same options; the table is not modified |
| `Service.RegisterThenCreate` | core/service/registry.go:26-45 | from the contracts alone: a new registry rejects every type, a registration is seen by the next Create of that type, registering another type leaves that result unchanged, and a later registration of the same type replaces it |

## Left out

- How the proposal storage is filled, refreshed and synchronised with concurrent writers: each query takes the snapshot as a parameter.
- `NewFinder`, which only wraps the storage pointer, is not modelled beyond that parameter.
- The market package's `UniqueID()` and `GetLocation()` are plain fields of the proposal. Proposals and filters carry only the fields the finder reads. The location filter's other fields are gathered in one field, `rest`.
- Aliasing of the pointer that `GetProposal` returns: it points to a copy, so the model returns the proposal as a value.
- `net.IPMask.Size()` and `net.IP.String()`: the mask is given by its ones count and the IP by its text.
- `strconv.Itoa` is modelled as plain decimal text of an unbounded integer. Go's 64-bit `int` limit is not modelled, because no value here can reach it.
- Running the ipset tool and touching the kernel firewall are process and operating-system I/O.
- What a service factory builds and which errors it reports: a factory is an uninterpreted function value.
- `ErrUnsupportedServiceType` and the service `Options` type are declared in files that are not part of this model. `Options` carries the type plus one opaque settings field.
- Concurrent access to the registry's map is not modelled.
