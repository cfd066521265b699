# http-tunneler: a Dafny model of the tunnel registry and router

http-tunneler is a reverse-tunnel relay. It runs one public HTTP server. The
first path segment of each request is a random 10-letter token, and the
server looks that token up in a registry of `{ token: port }` entries kept in
`./tunnels.json`. It then sends a GET for the rest of the path to
`http://127.0.0.1:<port>/`. The CLI adds a tunnel by generating a token for a
local port, and removes tunnels by port.

This project models the logic core of `tunnel.js`. Each part has its own module:

- `Segments` (segments.dfy): `req.url.split("/")` as the function `Split`. It
  also holds the loop that rebuilds the target path as `Joined`, and the
  guarded `pop()` as `PopEmpty`. Beside them are the lemmas that relate them:
  splitting and then joining gives the text back with one '/' added.
- `Registry` (registry.dfy): one registry entry is `Entry(token, port)`. The
  file's contents are a value `ConfigFile = Absent | Blank | Stored(list)`,
  which every save overwrites in full. `getTunnels` is the pure function
  `GetTunnels`. It returns the list or the `{}` marker, together with the file
  as it leaves it. The three `filter` calls are `Matching`, `UsingPort` and
  `WithoutPort`. The module-level `tunnels` array and the file together make
  up the class `Tunnels`. Its methods are `Reload`, `CreateConfig`,
  `SaveTunnels`, `AddTunnel` and `RemoveTunnel`, and each one states the new
  state it leaves.
- `Router` (router.dfy): `Resolve` is the routing decision from a URL and a
  registry to `NotFound | Forward(port, targetUrl)`. The method `Route` does
  the same steps as the callback (the filter, the `pop()`, the loop) and is
  proved equal to `Resolve`. `HandleRequest` adds the registry reload.
- `Tokens` (tokens.dfy): `generatePath`. The random draws come in as a
  sequence of integers in 0..50.

The model follows the code as written. In particular:

- A port conflict throws `[ERROR] port already used`. That message does not
  name the token that already holds the port.
- When `tunnels.json` is absent, `addTunnel` creates the file and skips the
  port check.
- The rebuilt target path puts a `/` after every segment. So `/T/foo/bar?x=1`
  is forwarded to `http://127.0.0.1:<port>/foo/bar?x=1/`, and a query string
  stays part of the segment it is in (`Router.ForwardedPath`).
- Loading an absent or empty file returns the `{}` marker, not an empty list.
- `start` has no guard against listening on a port that a tunnel forwards to.

## Model

| member | source | states |
|---|---|---|
| `Segments.Split` | tunnel.js:16 | splitting on '/' gives one more piece than the text has slashes, and no piece contains a '/' |
| `Segments.JoinedSplit` | tunnel.js:16-39 | joining the pieces of a split, with a '/' after each piece, gives the original text plus one '/' |
| `Segments.Joined` | tunnel.js:36-39 | the target path the loop builds: every segment followed by '/', concatenated (its properties are stated by `JoinedSplit`, `JoinedSnoc` and `JoinedEndsInSlash`) |
| `Segments.PopEmpty` | tunnel.js:32 | the guarded `pop()`: drops one trailing empty segment and only that (stated by `PopEmptyDropsOne`) |
| `Segments.PopEmptyDropsOne` | tunnel.js:32 | the guarded pop keeps a prefix of the segments, at most one shorter, and is shorter exactly when the last segment is empty |
| `Segments.JoinedSnoc` | tunnel.js:37-39 | each loop step adds one segment and one '/' at the end of the target path |
| `Segments.SplitWithoutSlash` | tunnel.js:16-17 | a text without '/' splits into itself alone, so the router sees fewer than 2 segments |
| `Segments.SplitAtFirstSlash` | tunnel.js:16 | the text before the first '/' is the first segment, and the pieces after it are the split of the rest |
| `Segments.JoinedEndsInSlash` | tunnel.js:37-39 | the rebuilt path is empty or ends in '/' |
| `Segments.SplitLast` | tunnel.js:16-39 | a text is the join of all its segments but the last, followed by the last segment |
| `Segments.Rejoined` | tunnel.js:32-39 | split, pop one trailing empty segment, rejoin: gives the text unchanged if it is empty or ends in '/', and otherwise the text plus '/'; query strings and repeated slashes are kept |
| `Registry.Cached` | tunnel.js:12-24 | the corrected reading of `tunnels = getTunnels()`, with the `{}` marker read as no tunnels; its effect is stated by the ensures of `Tunnels.constructor` and `Tunnels.Reload`, by `FirstAddAfterEmptyStart` (the first add passes) and by `HandleRequest` (a 404 on an empty registry) |
| `Registry.GetTunnels` | tunnel.js:187-199 | an absent file is created holding an empty list and the `{}` marker is returned; an empty file gives the marker and is left alone; a stored list is returned unchanged; the file exists afterwards |
| `Registry.Matching` | tunnel.js:25 | the token filter keeps only entries of the registry with that token, and is empty exactly when no entry has the token |
| `Registry.UsingPort` | tunnel.js:204 | the conflict filter keeps only entries on that port, and is empty exactly when no entry uses the port |
| `Registry.WithoutPort` | tunnel.js:220 | an entry is kept exactly when it is in the registry and on another port; the list never grows |
| `Registry.FirstMatchIsEarliest` | tunnel.js:25-31 | the first element of the token filter is the earliest entry in registry order that has the token |
| `Registry.WithoutPortConcat` | tunnel.js:220 | removal keeps the registry order: filtering a concatenation gives the concatenation of the filtered parts |
| `Registry.WithoutPortCount` | tunnel.js:220 | removal keeps each entry on another port exactly as often as it occurs, and drops every entry on the removed port |
| `Registry.WithoutAbsentPort` | tunnel.js:219-221 | removing a port that no entry uses leaves the list unchanged |
| `Registry.WithoutPortIdempotent` | tunnel.js:219-221 | removing a port twice gives the same list as removing it once |
| `Registry.WithoutPortKeepsUnique` | tunnel.js:220 | if no two entries share a port before a removal, none do after it |
| `Registry.AppendKeepsUnique` | tunnel.js:204-210 | appending an entry on a port that passed the conflict check keeps every port unique |
| `Registry.RemoveUndoesAdd` | tunnel.js:208-220 | removing the port of an entry just added on a free port gives back the registry as it was before the add |
| `Registry.Tunnels.constructor` | tunnel.js:12 | at start-up the cache is loaded from the file on disk (the `{}` marker counts as no tunnels), and an absent file is created |
| `Registry.Tunnels.Reload` | tunnel.js:24 | the cache is reloaded from the current file, and an absent file is created |
| `Registry.Tunnels.CreateConfig` | tunnel.js:197-199 | the file is written holding an empty list |
| `Registry.Tunnels.SaveTunnels` | tunnel.js:215-217 | the file is overwritten with the whole cached list and loads back as that list |
| `Registry.Tunnels.AddTunnel` | tunnel.js:201-213 | if the file exists and some entry uses the port, it fails with `[ERROR] port already used` and changes neither the cache nor the file; otherwise it appends exactly `{path: port}` after the old entries, and the file then holds the new list; an add that passed the check keeps ports unique |
| `Registry.Tunnels.RemoveTunnel` | tunnel.js:219-222 | the cache becomes exactly the entries on other ports in their old order, the file then holds that list, and port uniqueness is kept |
| `Registry.AddAsWritten` | tunnel.js:201-213 | addTunnel as written, with the cache possibly holding the `{}` marker: the marker always makes it throw something other than the port conflict; with a real list it writes exactly when the file is absent or the port is free |
| `Registry.FirstAddAfterEmptyStartThrows` | tunnel.js:187-206 | starting with an absent or empty file, the first add throws `tunnels.filter is not a function` |
| `Registry.FirstAddAfterEmptyStart` | tunnel.js:187-213 | with the marker read as an empty list, the first add after starting with an absent or empty file succeeds and saves the one new entry |
| `Router.Decimal` | tunnel.js:40 | the text `${port}` gives for an integer port of magnitude below 2^53: a '-' for a negative port, then the digits of its magnitude (stated by `DigitsShape` and `DecimalValue`) |
| `Router.DigitsShape` | tunnel.js:40 | the digits of a number are never empty, are all decimal digits and have no leading zero |
| `Router.DigitsValue` | tunnel.js:40 | the digits of a number read back as that number |
| `Router.DecimalValue` | tunnel.js:40 | a port's text is its digits, after a '-' when it is negative, and reads back as the port |
| `Router.TargetUrl` | tunnel.js:40 | the target URL `http://127.0.0.1:${port}/` followed by the rebuilt path (stated by `TargetUrlParts`) |
| `Router.TargetUrlParts` | tunnel.js:40 | the target URL is `http://127.0.0.1:`, then the port's text, then '/', then the rebuilt path, each readable back at its place |
| `Router.Remainder` | tunnel.js:32-38 | the segments the loop visits: from index 2 on, after the guarded pop (stated by `RemainderIsSuffix`) |
| `Router.RemainderIsSuffix` | tunnel.js:32-38 | with at most two segments the loop visits none; otherwise it visits every segment after the token, less a trailing empty one |
| `Router.Resolve` | tunnel.js:16-40 | the routing decision from a URL and a registry: a 404, or the first matching entry's port and the rebuilt target URL; characterised by `NotFoundExactly`, `FirstMatchWins`, `ForwardTargetsAnEntry`, `ForwardedPath` and `BareTokenPath` |
| `Router.ForwardTargetsAnEntry` | tunnel.js:16-31 | a forwarded request has a '/' in its URL and goes to the port of an entry whose token is segment 1 |
| `Router.Route` | tunnel.js:16-40 | the callback's step-by-step decision (split, token filter, guarded pop, target-building loop) equals `Resolve` |
| `Router.HandleRequest` | tunnel.js:14-40 | a URL without '/' is a 404 and reads nothing; otherwise the registry is reloaded from the file first, and the request is routed against what was loaded |
| `Router.NotFoundExactly` | tunnel.js:16-29 | the result is a 404 exactly when the URL has no '/' or segment 1 is no entry's token |
| `Router.FirstMatchWins` | tunnel.js:22-31 | the forwarded port is the port of the earliest entry whose token is segment 1 |
| `Router.ForwardedPath` | tunnel.js:22-40 | `<head>/<token>/<rest>` is forwarded to the first matching port, with `rest` unchanged (plus '/' when it is not empty and does not end in '/') |
| `Router.SplitAfterToken` | tunnel.js:16-22 | the segments of `<head>/<token>/<rest>` are head, token, then the segments of rest |
| `Router.RemainderAfterToken` | tunnel.js:32-38 | the loop visits the segments after the token, less one trailing empty segment |
| `Router.BareTokenPath` | tunnel.js:22-40 | `<head>/<token>` is forwarded to the root path of the first matching port |
| `Router.RootIsNotFound` | tunnel.js:16-29 | `/` names the empty token, so when no entry has an empty token it is a 404 |
| `Router.TrailingSlashOptional` | tunnel.js:32-40 | `/T` and `/T/` are both forwarded to `http://127.0.0.1:<port>/` |
| `Router.SegmentsGetSlashes` | tunnel.js:32-40 | `/T/a/b` is forwarded to `.../a/b/`, and a query string in the last segment stays inside it |
| `Router.DoubleSlashKept` | tunnel.js:32-40 | `<head>/T//` (so `/T//`) is forwarded to `...//`, because only one trailing empty segment is popped |
| `Tokens.AlphabetAt` | tunnel.js:109-162 | the alphabet has 52 letters: index k < 26 holds the k-th lower-case letter and index 26 + k the k-th upper-case letter |
| `Tokens.Spell` | tunnel.js:164-167 | draws in 0..50 spell a string of the same length whose letter i is the alphabet letter at draw i; it holds only ASCII letters and never 'Z' |
| `Tokens.SpellSnoc` | tunnel.js:165-166 | one more draw appends the alphabet letter at that draw |
| `Tokens.GeneratePath` | tunnel.js:108-170 | URL_LENGTH (10) draws give a token of exactly 10 ASCII letters; letter i is the alphabet letter at draw i, and 'Z' never appears |
| `Tokens.DrawFor` | tunnel.js:109-166 | each ASCII letter other than 'Z' is the alphabet letter at some draw in 0..50 |
| `Tokens.DrawsFor` | tunnel.js:164-167 | a string of such letters has a list of valid draws of the same length |
| `Tokens.EveryLetterStringIsSpelt` | tunnel.js:108-170 | every string of ASCII letters without 'Z' is spelt by some valid draws, so the possible tokens are exactly the 10-letter strings over the other 51 letters |

## Findings

| source | as written | input that shows it | evidently intended | confidence | as-written member | corrected member |
|---|---|---|---|---|---|---|
| tunnel.js:187-206 | `getTunnels` returns `{}` for an absent or empty file, and that value is cached in `tunnels`; `addTunnel` then calls `tunnels.filter` on it and throws a TypeError | no tunnels.json (or an empty one), then `add 3000`: the module start creates the file and caches `{}`, and the add prints `tunnels.filter is not a function` and saves nothing | the first add on an empty registry succeeds and saves `[{<token>: 3000}]` | not executed | `Registry.FirstAddAfterEmptyStartThrows` | `Registry.FirstAddAfterEmptyStart` |

The rest of the model uses the corrected reading: `Registry.Cached` reads the
`{}` marker as an empty list.

## Left out

- Forwarding: `http.get(targetUrl)`, piping the upstream response back, and
  the 500 answer on an upstream error (tunnel.js:42-53). These are network I/O
  and streaming. Routing ends at the `Forward(port, targetUrl)` decision. Only
  GET requests are ever issued, so method, header and body replay do not exist
  in the code.
- The CLI wiring (`add`, `remove`, `start`, `-c`) and `server.listen` on the
  fixed port 27399 (tunnel.js:57-106). Ports come in as integers. `parseInt`
  giving NaN, which the code reports and then ignores, is not modelled.
- `getIp` (tunnel.js:172-185) is an external HTTPS call.
- File reads and writes and JSON encoding. The file is the value
  `ConfigFile`, and every save replaces it whole. A file holding text that is
  not valid JSON (where `JSON.parse` throws) has no state in the model.
- `Math.random` and the float rounding. The draws are parameters, already
  rounded to integers in 0..50.
- JavaScript's loose equality `Object.keys(tunnel) == subpath`. For the
  single-key entries the code writes, this is token equality, and entries are
  modelled as (token, port) pairs. Objects with several keys are not modelled.
- The router with the `{}` marker cached. In JavaScript, `tunnels.filter`
  (tunnel.js:24-25) throws inside the request listener when the file is
  empty, or when it was absent at that reload. Nothing in the listener
  (tunnel.js:14-55) catches it, so it is an uncaught exception in the server
  process, not one failed request: the server-side effect of the same bug as
  the finding above. `HandleRequest` reads the marker as an empty list and
  answers 404, in line with that finding's corrected reading.
- Router.Decimal: a port is rendered as an integer's exact decimal text.
  JavaScript numbers print their shortest round-trip digits, so an integer
  port above 2^53 prints rounded (`2**60` as `1152921504606847000`), and from
  10^21 on in exponent form (`1e+21`); neither is modelled, nor is the text
  of a non-integer or NaN port. Real ports are below 65536.
- Registry.Tunnels.RemoveTunnel: after a start with an absent or empty
  file, JavaScript's `removeTunnel` calls `tunnels.filter` on the cached `{}`
  and throws `tunnels.filter is not a function`, leaving the file as it was.
  The model reads the marker as an empty list, as for the finding above, so
  it writes a file holding an empty list instead.
- Concurrent requests and racing add/remove writers. Each operation is
  modelled as one sequential step on the registry state.
