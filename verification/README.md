# Go-Practice core, modelled in Dafny

This project models the sequential logic of five small Go programs from the
Go-Practice repository and proves what each promises:

- **todo list** (`todo/todo.go`): the `Todos` slice and its in-place
  operations `Add`, `Delete`, `Toggle`, `Edit`, guarded by `validateIndex`
  (module `TodoStore`, class `Todos`);
- **todo command dispatch** (`todo/command.go`): `CmdFlags.Execute`, which runs
  at most one operation in the priority order list, add, edit, toggle,
  delete, and parses the `-edit id:new_title` argument with
  `strings.SplitN` and `strconv.Atoi` (module `TodoCommand`);
- **round-robin load balancer** (`loadBalancers/roundRobin/roundRobin.go`):
  `NewLoadBalancer` and `getNextAvailableServer` over a counter field (module
  `RoundRobin`, class `LoadBalancer`);
- **URL shortener** (`urlShortner/main.go`): `isValidURL`, the bounded retry
  loop of `generateShortURL`, the validate / prefix "http://" / store path of
  `shortenURLHandler` and the lookup of `redirectHandler` (module
  `UrlShortener`, class `Store`);
- **integer helpers** (`functions.go`): `division` with Go's truncated `/`
  and `%`, and the variadic `sum` (module `Functions`).

Go's `int` is 64 bits wide; module `GoInt` gives the range and the
two's-complement wrap-around, used by `division` (MinInt64 / -1 wraps to
MinInt64, remainder 0) and by `sum` (each `total += n` wraps). Module
`Arith` holds the facts about Euclidean `%` these rest on; `Wrappers` holds
`Option` and `Result`.

External inputs are parameters: `time.Now()` is a `Time` argument,
`url.Parse` is a function `string -> Option<Url>` reporting scheme and host,
`net.LookupHost` is a predicate on the host, and the random generator is the
stream `draw: nat -> LetterIndex` of the values `Intn(62)` returns, six per
attempt. The `store` map and the slice of todos are fields that the methods
reassign; each state-changing method is specified by a function on values
(`Deleted`, `ToggledAt`, `Shorten`, `CmdFlags.Effect`, ...) whose properties
are proved.

## Model

| member | source | states |
|---|---|---|
| `TodoStore.Added` | todo/todo.go:24-33 | the list grows by exactly one; earlier items are unchanged; the new last item has the given title, is not completed, has no completion time and was created at the given time |
| `TodoStore.Deleted` | todo/todo.go:44-51 | a valid index shortens the list by one, items before it stay at their places and items after it move down by one; an invalid index leaves the list unchanged |
| `TodoStore.DeletedIsRemoval` | todo/todo.go:49 | putting the removed item back at its index gives the original list; as a multiset the list lost exactly that item |
| `TodoStore.Toggled` | todo/todo.go:58-64 | the completion flag is negated; title and creation time are kept; the completion time is stamped only on the open-to-completed transition and kept otherwise |
| `TodoStore.ToggledAt` | todo/todo.go:53-66 | length is kept; only the item at a valid index is toggled, every other item is unchanged; an invalid index changes nothing |
| `TodoStore.ToggleTwiceOpen` | todo/todo.go:58-64 | toggling an open item twice reopens it and leaves the completion time from the first toggle in place (non-nil) |
| `TodoStore.ToggleTwiceCompleted` | todo/todo.go:58-64 | toggling a completed item twice completes it again, stamped by the second toggle |
| `TodoStore.EditedAt` | todo/todo.go:68-76 | only the title of the item at a valid index changes (completion, times and other items unchanged); an invalid index changes nothing |
| `TodoStore.Todos.constructor` | todo/main.go:8 | a new list is empty |
| `TodoStore.Todos.Add` | todo/todo.go:24-33 | the new list is `Added` of the old one |
| `TodoStore.Todos.ValidateIndex` | todo/todo.go:35-42 | returns the "invalid index" error exactly when the index is negative or not below the length |
| `TodoStore.Todos.Delete` | todo/todo.go:44-51 | returns an error exactly for an invalid index; the new list is `Deleted` of the old one |
| `TodoStore.Todos.Toggle` | todo/todo.go:53-66 | returns an error exactly for an invalid index; the new list is `ToggledAt` of the old one |
| `TodoStore.Todos.Edit` | todo/todo.go:68-76 | returns an error exactly for an invalid index; the new list is `EditedAt` of the old one |
| `TodoCommand.SplitN2` | todo/command.go:39-40 | one part (the whole string) when there is no colon, two parts otherwise: the colon-free text before the first colon and everything after it |
| `TodoCommand.SplitN2AtFirst` | todo/command.go:39 | a colon-free head, a colon and any tail split back into exactly that head and that tail, colons in the tail kept |
| `TodoCommand.Atoi` | todo/command.go:44-49 | a result exists exactly when the text is an optional `+` or `-` followed by at least one decimal digit and the signed value fits in 64 bits (so "", "+" and "-" are rejected); the result is that signed value |
| `TodoCommand.DigitsValueLeadingZero` | todo/command.go:44 | a leading zero does not change the value of a digit string |
| `TodoCommand.AtoiSpellings` | todo/command.go:44-49 | for a non-empty digit string d, "+d" and "0d" read as d does, and "-d" reads as minus d's value exactly when that fits in 64 bits |
| `TodoCommand.AtoiItoa` | todo/command.go:44 | every 64-bit integer written in decimal is read back as itself |
| `TodoCommand.ParseEdit` | todo/command.go:38-49 | no colon gives the format error; a parsed edit has its index read from the text before the first colon and its title equal to all text after it |
| `TodoCommand.ParseEditRoundTrip` | todo/command.go:39-50 | any index and any title, even one containing colons, parse back from `index:title` unchanged |
| `TodoCommand.CmdFlags.Effect` | todo/command.go:32-57 | list wins and changes nothing; otherwise add wins and appends once; a bad edit exits with code 1 and changes nothing; toggle then delete apply when not -1; with no flag the command is invalid and nothing changes; only a normal run changes the list |
| `TodoCommand.CmdFlags.Execute` | todo/command.go:32-58 | the status and the new list are those of `Effect` on the old list; errors from Edit, Toggle and Delete are ignored |
| `TodoCommand.EditOutOfRangeUnchanged` | todo/command.go:39-50 | an edit whose id (in any form `Atoi` accepts, such as "+1" or "01", which `AtoiSpellings` shows read as 1) names an out-of-range index runs normally and leaves the list unchanged |
| `TodoCommand.EditRetitles` | todo/command.go:39-50 | an edit whose id (in any form `Atoi` accepts) names a valid index runs normally and replaces exactly that item's title, the title being all text after the first colon |
| `TodoCommand.EditBadIdExits` | todo/command.go:44-49 | an edit whose id is not an integer exits with code 1 and leaves the list unchanged |
| `RoundRobin.Positions` | loadBalancers/roundRobin/roundRobin.go:64 | every picked position is a valid index into the server list |
| `RoundRobin.Rotation` | loadBalancers/roundRobin/roundRobin.go:63-71 | consecutive calls from a counter value return the servers at those positions |
| `RoundRobin.PositionsVisitEachOnce` | loadBalancers/roundRobin/roundRobin.go:64-69 | any `len(servers)` consecutive calls, from any counter value, pick every position exactly once |
| `RoundRobin.RotationFromCycleStart` | loadBalancers/roundRobin/roundRobin.go:43-69 | from counter 0 (or any multiple of the server count) `len(servers)` calls return the servers in index order |
| `RoundRobin.RotationWindow` | loadBalancers/roundRobin/roundRobin.go:63-71 | the calls from a counter value on are a suffix of all calls since counter 0 |
| `RoundRobin.LoadBalancer.constructor` | loadBalancers/roundRobin/roundRobin.go:43-49 | stores the port and the servers, counter 0, nothing served yet |
| `RoundRobin.LoadBalancer.GetNextAvailableServer` | loadBalancers/roundRobin/roundRobin.go:63-71 | needs a non-empty server list; returns the server at the old counter modulo the count, increments the counter by one, never changes the servers, and the history of served servers stays the rotation from counter 0 |
| `UrlShortener.IsValidUrl` | urlShortner/main.go:28-40 | true exactly when parsing succeeds, the host is non-empty and the scheme is "http" or "https" |
| `UrlShortener.NormalizedUrl` | urlShortner/main.go:112-120 | a valid URL is kept; otherwise "http://" + URL when that is valid; rejected exactly when both are invalid; what is kept is always valid |
| `UrlShortener.HostResolvable` | urlShortner/main.go:43-56 | true exactly when the URL parses and its host resolves |
| `UrlShortener.Candidate` | urlShortner/main.go:70-74 | each attempt builds a key of six characters of the 62-letter alphabet |
| `UrlShortener.FirstFreeKey` | urlShortner/main.go:58-90 | the result is "" or a six-letter key not in the store; it is "" exactly when all remaining attempts up to 100 collide; a non-empty result is the candidate of one of those attempts |
| `UrlShortener.FirstFreeKeyIsFirst` | urlShortner/main.go:63-87 | the retry loop stops at the first free attempt: if attempt a draws a key not in the store and every earlier attempt collided, the result is exactly that key |
| `UrlShortener.Store.GenerateShortUrl` | urlShortner/main.go:58-90 | returns the first non-colliding candidate of at most 100 attempts, or "" when all 100 collide |
| `UrlShortener.Shorten` | urlShortner/main.go:92-152 | an undecodable body gives "Invalid request", an empty URL "URL is required", a URL invalid with and without "http://" "Invalid URL"; for a normalised URL the host error comes exactly when its host does not resolve, and otherwise the answer is the generation failure when every attempt collides and success with the first free key; every failure leaves the store unchanged; success adds exactly the fresh key mapped to the normalised URL and changes no other entry |
| `UrlShortener.Store.constructor` | urlShortner/main.go:23-25 | the store starts as the map loaded from the store file |
| `UrlShortener.Store.ShortenUrl` | urlShortner/main.go:92-152 | the answer and the new store are those of `Shorten` on the old store |
| `UrlShortener.Lookup` | urlShortner/main.go:196-207 | the key is the path without its leading "/"; found exactly when that key is stored, with the stored URL |
| `UrlShortener.Store.Redirect` | urlShortner/main.go:196-207 | answers as `Lookup` on the current store, which it does not change |
| `UrlShortener.ShortenThenRedirect` | urlShortner/main.go:140 | after a successful shorten, redirecting "/" + key leads to the stored normalised URL, and keys stored before still lead where they did |
| `GoInt.Wrap` | functions.go:38 | the result equals its argument when that fits in 64 bits and differs from it by a multiple of 2^64 otherwise |
| `Functions.Divide` | functions.go:21-31 | a zero denominator gives (0, 0, error); otherwise no error, quotient times denominator plus remainder is the numerator (exactly, and modulo 2^64 for MinInt64 / -1), the remainder is smaller than the denominator in magnitude and has the numerator's sign or is 0, and the quotient rounds toward zero |
| `Functions.TruncRemBounds` | functions.go:27-28 | Go's remainder is below the divisor in magnitude, has the dividend's sign or is 0, and the quotient does not overshoot |
| `Functions.TruncUnique` | functions.go:27-28 | any quotient and remainder meeting Go's equation and remainder rule are the truncated ones |
| `Functions.QuotientFits` | functions.go:27 | apart from MinInt64 / -1 the quotient of two 64-bit integers fits in 64 bits |
| `Functions.QuotientOverflow` | functions.go:27-28 | MinInt64 / -1 is 2^63, which wraps to MinInt64, with remainder 0 |
| `Functions.DivideTwelveByThree` | functions.go:7-10 | `division(12, 3)` is quotient 4, remainder 0, no error |
| `Functions.Sum` | functions.go:35-41 | the result is the sum of the arguments wrapped to 64 bits, exactly the sum when that fits, and 0 for no arguments |
| `Functions.SumExamples` | functions.go:17-18 | `sum(1,2,3,4)` is 10 and `sum(1,2,3)` is 6 |

## Left out

- crawler/crawler.go, the concurrent web crawler: goroutine fan-out, wait group and mutex, with `http.Get` and an HTML parser as its only work; it is not part of this model.
- `Todos.Print` (table rendering to standard output), `NewCmdFlags` (the `flag` package), and the JSON load and save of todo/main.go; the `list` case of `Execute` is modelled as leaving the list unchanged.
- Console messages printed with `fmt.Println` throughout are not modelled.
- TodoStore.Todos.Delete: the slice's shared backing array (which Go's `append` reuses) is not modelled; the list is a value.
- Go strings are byte strings, while the model's `string` is a sequence of Unicode scalar values. Every string operation in the model looks only at ASCII: the `:` separator, decimal digits, the key alphabet, and the path after its leading `/`. So behaviour agrees wherever both can represent the input, but a flag or URL path holding invalid UTF-8 cannot be represented.
- TodoCommand.Atoi: syntax and range errors of `strconv.Atoi` are not distinguished; both are "no value".
- TodoCommand.CmdFlags.Execute: `os.Exit(1)` is the status `Exit(1)`; the process end itself, and that the list is then not saved, are outside the model (the list is unchanged either way).
- RoundRobin.LoadBalancer.GetNextAvailableServer: the counter is an unbounded natural number, not a Go `int` that would overflow after 2^63 calls; the `!isAlive()` retry loop is not modelled, since `isAlive` always returns true and the loop would never end for a dead server because it does not advance the counter.
- Reverse proxying (`Serve`, `httputil`), `handleErr`/`os.Exit`, `serveProxy`'s logging and the HTTP servers of both programs.
- UrlShortener: `url.Parse` is a parameter reporting only scheme and host; `net.LookupHost` is a parameter; `math/rand` is the `draw` stream; JSON decoding of the request is reduced to "a URL or an undecodable body"; `saveStore`'s file write and the JSON encoding of the answer are not modelled (its `short_url` value is `ShortenResponse.ShortUrl`).
- UrlShortener.Shorten: the mutex is left out and each request is one sequential step; in the Go handler the freshness check of `generateShortURL` (urlShortner/main.go:78-80) and the insert (urlShortner/main.go:139-141) are separate critical sections, so that the new key is not yet in the store holds only when no other request runs in between.
- UrlShortener.Lookup: requires a non-empty path, because `r.URL.Path[1:]` panics on an empty one.
- crudApi (gorm/gin wrappers), server/main.go (HTTP handlers), notesApp/model.go (does not compile) and the language demos (arrays.go, dataTypes.go, loops.go, maps.go, struct.go, deadlock.go).
