# Forca-Vendas: verified model of the sales app's sequential logic

This project models four pieces of the Forca-Vendas sales-representative app in Dafny and proves properties of each:

- **CPF input mask** (login screen). Every keystroke in the CPF field goes through `formatCPF`. It deletes every character that is not an ASCII digit, keeps at most eleven digits and lays them out as `DDD.DDD.DDD-DD`. Module `CpfMask` has the function, its layout, a left inverse onto the truncated digits (deleting the separators), idempotence, and the screen field that stores the formatted text.
- **Paginated client list** (home screen). Module `ClientListScreen` has a `HomeScreen` class. Its fields are the screen's six state variables: `clientes`, `loading`, `searchQuery`, `page`, `hasMore` and `isFetching`. Each event has its own method:
  - fetch start, guarded by `isFetching` and `hasMore`;
  - fetch success, where page 1 replaces the list and later pages are appended;
  - fetch failure;
  - the effect that fetches on a page or search change;
  - load-more;
  - search.

  The network reply is a method argument. Four scenario methods each build a fresh screen and prove the end state of a sequence of events.
- **Repository paging and row mapping** (backend). Modules `Paging`, `ClientRepository` and `ProductRepository` cover:
  - `getByClient` and `getproduct`, with the offset arithmetic and the search pattern;
  - the empty-result case;
  - positional row-to-record mapping, with its inverse;
  - the "page full means more" heuristic;
  - the fixed error messages.

  The database is abstract. For clients it is a function from bind parameters to an outcome: rows or a failure. The product query has no bind parameters, so for products it is a single outcome.
- **Login decision table** (backend `/login` route). Module `LoginRoute` maps `cpf`, `senha` and the user-lookup outcome (a failure, no rows, or rows) to the HTTP status and JSON body.

The other modules share `Results` (Option and Result). A thrown `Error` becomes `Err` carrying its message.

Three behaviours of the code are kept as written:
- `getproduct`'s query returns at most 15 active products. It ignores `id` and `page`: the offset is computed and never used. So with the default limit of 50 it never reports a next page.
- On the home screen, `handleSearch` resets `page` but not `hasMore`. Once a reply reported no further page, a new search issues no request, and the old list stays on screen (`ExhaustedListStaysBlocked`).
- The `hasMore` heuristic is kept as written. An exactly full last page reports a successor (`ClientRepository.ExactlyFullLastPage`).

## Model

| member | source | states |
|---|---|---|
| CpfMask.Keep | app/login.tsx:52 | the filtered string is no longer than the input and every character kept satisfies the filter |
| CpfMask.KeepCounts | app/login.tsx:52 | every character that passes the filter is kept, as many times as it occurs in the input |
| CpfMask.Digits | app/login.tsx:52 | `replace(/\D/g, '')` keeps only ASCII digits, keeps every digit of the input as often as it occurs, and never lengthens the input |
| CpfMask.Truncate | app/login.tsx:55 | `slice(0, 11)` yields the first min(11, n) characters, as a prefix |
| CpfMask.FormatCpf | app/login.tsx:50-70 | the output is at most 14 characters (the field's `maxLength`, line 95) and contains only 0-9, '.' and '-' |
| CpfMask.Mask | app/login.tsx:58-67 | with at most eleven characters the output has length k + (k-1)/3 (0 when k = 0); its last character is the input's last character, so the mask of a digit string never ends in a separator; up to three characters pass unchanged; beyond that the first three are kept and followed by '.' |
| CpfMask.MaskShape | app/login.tsx:58-67 | the three guarded rebindings give `t`, `DDD.D..`, `DDD.DDD.D..` or `DDD.DDD.DDD-D..` depending on the digit count |
| CpfMask.MaskLayout | app/login.tsx:58-67 | digit i lands at index i + i/3; the length is k + (k-1)/3 (0 when k = 0); '.' stands at 3 and 7, '-' at 11, and digits everywhere else |
| CpfMask.SeparatorRule | app/login.tsx:58-67 | with three or fewer digits the output is just the digits; the '.' at 3, the '.' at 7 and the '-' at 11 appear iff there are more than 3, 6 and 9 digits respectively |
| CpfMask.FullCpfForm | app/login.tsx:55-67 | with eleven or more digits the output has exactly the form `DDD.DDD.DDD-DD` |
| CpfMask.KeepConcat | app/login.tsx:52 | filtering distributes over concatenation |
| CpfMask.KeepMask | app/login.tsx:58-67 | any filter that keeps the digits and drops both separators recovers the masked digits exactly |
| CpfMask.SeparatorsStripToDigits | app/login.tsx:52-67 | deleting '.' and '-' from the output leaves exactly the first min(11, k) digits of the input, in order |
| CpfMask.DigitsOfFormatted | app/login.tsx:52-67 | the digits of the output are the truncated digits of the input |
| CpfMask.FormatCpfIdempotent | app/login.tsx:52-67 | formatting an already formatted value returns it unchanged |
| CpfMask.LoginScreen.HandleChangeText | app/login.tsx:73-76 | the stored CPF becomes the formatted text; the field always holds a fixed point of the mask of at most 14 characters |
| ClientListScreen.HomeScreen.constructor | app/home.tsx:79-84 | the initial state: empty list, not loading, empty query, page 1, more pages assumed, nothing in flight |
| ClientListScreen.HomeScreen.StartFetch | app/home.tsx:88-91 | while a fetch is in flight or once `hasMore` is false nothing changes and no request is issued; otherwise both flags are raised and one request for the page and query is issued |
| ClientListScreen.HomeScreen.FetchSucceeded | app/home.tsx:102-111 | page 1 replaces the list with the returned clients; any other page appends them after the unchanged list; `hasMore` comes from the reply; the flags are lowered |
| ClientListScreen.HomeScreen.FetchFailed | app/home.tsx:112-121 | the list and `hasMore` are unchanged and both flags are lowered |
| ClientListScreen.HomeScreen.Complete | app/home.tsx:102-121 | only status 200 with `user` present takes the success path; an exception or any other reply takes the error path; both end with the flags lowered |
| ClientListScreen.HomeScreen.FetchClientes | app/home.tsx:88-122 | the whole fetch: the guard, then either no request, or one request followed by the replace-or-append success or the unchanged failure, with the flags lowered after |
| ClientListScreen.HomeScreen.OnPageOrSearchChange | app/home.tsx:124-127 | a page or search change fetches the current page with the current query |
| ClientListScreen.HomeScreen.HandleLoadMore | app/home.tsx:129-133 | the page goes up by exactly one when not loading, `hasMore` and not fetching, and stays the same otherwise; nothing else changes |
| ClientListScreen.HomeScreen.HandleSearch | app/home.tsx:135-139 | the query is set and the page reset to 1; the list and `hasMore` are untouched |
| ClientListScreen.TwoPagesAppend | app/home.tsx:105-109 | page 1 and then page 2 give a list that is page 1's clients followed by page 2's, its length the sum of both; the second request is for page 2 |
| ClientListScreen.FailureThenRetry | app/home.tsx:112-121 | a failed page-2 fetch keeps page 1's list, and the identical retry then issues a request and appends page 2 |
| ClientListScreen.SearchReplacesList | app/home.tsx:105-106 | while more pages exist, a new search requests page 1 for the new query and the list becomes that page |
| ClientListScreen.ExhaustedListStaysBlocked | app/home.tsx:89 | after a reply without more pages, load-more leaves the page at 1 and a new search issues no request, so the old list stays |
| Paging.Offset | backend-forca/src/repositories/ClientRepository.ts:33 | page 1 starts at row 0, pages from 1 on never start at a negative row when `limit` is non-negative, and the offset plus `limit` covers `page` full pages |
| Paging.OffsetSteps | backend-forca/src/repositories/ClientRepository.ts:33 | page 1 starts at row 0, each page starts `limit` rows after the previous one, and offsets of pages from 1 on are non-negative when `limit` is non-negative |
| ClientRepository.SearchPattern | backend-forca/src/repositories/ClientRepository.ts:59 | the bound pattern is the search term wrapped in one '%' on each side |
| ClientRepository.QueryBinds | backend-forca/src/repositories/ClientRepository.ts:57-62 | the query is bound to the given `id` and `limit`, starts at row (page - 1) × limit (offset + limit = page × limit: 0 on page 1, non-negative on later pages when `limit` is non-negative), and its pattern is exactly '%', the term, '%' |
| ClientRepository.FromRow | backend-forca/src/repositories/ClientRepository.ts:73-82 | the record built from a row reads back as exactly that row |
| ClientRepository.GetByClient | backend-forca/src/repositories/ClientRepository.ts:16-92 | a failure is re-raised as the fixed message; otherwise one record per row, in order, each reading back as its row; `hasMore` iff the page is non-empty and has exactly `limit` rows |
| ClientRepository.RowRoundTrip | backend-forca/src/repositories/ClientRepository.ts:73-82 | column i goes to field i (CODIGO, CNPJ, RAZAOSOC, CONTATO, ENDERECO, CIDADE, TABELA, REAJUSTE): mapping and reading back are inverse |
| ClientRepository.DefaultsQueryFirstFifty | backend-forca/src/repositories/ClientRepository.ts:18-20 | with the defaults the query binds offset 0, limit 50 and the pattern `%%` |
| ClientRepository.EmptyResult | backend-forca/src/repositories/ClientRepository.ts:68-70 | an absent or empty result is an empty page with no successor |
| ClientRepository.ExactlyFullLastPage | backend-forca/src/repositories/ClientRepository.ts:87 | an exactly full last page reports a successor, and fetching that successor gives an empty page with none |
| ProductRepository.GetProduct | backend-forca/src/repositories/ProductRepository.ts:14-70 | a failure is re-raised as the fixed message; otherwise one record per row, in order, the price kept as the returned string; `hasMore` iff the page is non-empty and has exactly `limit` rows |
| ProductRepository.FromRow | backend-forca/src/repositories/ProductRepository.ts:53-60 | the record built from a row reads back as exactly that row |
| ProductRepository.RowRoundTrip | backend-forca/src/repositories/ProductRepository.ts:53-60 | columns 0-5 go to CODIGO, DESCRICAO, UNIDADE, FAMILIA, ESTOQUE and PRECO: mapping and reading back are inverse |
| ProductRepository.ArgumentsIgnored | backend-forca/src/repositories/ProductRepository.ts:29-42 | the query has no binds, so `id`, `page` and `limit` do not change which products come back; `id` and `page` change nothing at all |
| ProductRepository.EmptyResult | backend-forca/src/repositories/ProductRepository.ts:48-50 | an absent or empty result is an empty page with no successor |
| ProductRepository.NeverMoreAboveRowLimit | backend-forca/src/repositories/ProductRepository.ts:16-65 | assuming the database honours `rownum <= 15`, any limit above 15, including the default 50, never reports a further page |
| LoginRoute.Login | src/config.tsx:50-105 | status 400 iff `cpf` or `senha` is missing or empty, echoing both inputs; otherwise 500 iff the lookup threw, 404 iff it found no row, 200 iff the first row's password equals `senha` exactly, 401 iff it differs |
| LoginRoute.SuccessIffPasswordMatches | src/config.tsx:75-83 | `success` is true exactly when a first row exists and its stored password equals the given one; then the status is 200 and the body carries the user's name, else it carries none |
| LoginRoute.FailureMessages | src/config.tsx:84-95 | 401, 404 and 500 carry 'Senha incorreta.', 'Usuário não encontrado.' and 'Erro no servidor.'; no other status is ever sent |
| LoginRoute.NoLookupWithoutCredentials | src/config.tsx:51-55 | with a missing credential the reply does not depend on the database at all: no lookup happens |
| LoginRoute.OnlyFirstRowConsulted | src/config.tsx:68-88 | the lookup uses the given CPF, and lookups that agree on whether they fail and on the first row give the same reply |

## Left out

- Database access (`oracledb` connections, opening and closing them, and the SQL itself: LIKE, GROUP BY, ORDER BY, OFFSET/FETCH, the `f_formata*` functions). The database is an abstract row source, and a failure to close a connection is only logged, so it does not affect results.
- Network I/O: the axios calls and `handleLogin` (which sends fixed credentials) are left out. The home screen's reply is a method argument.
- Rendering, styles, `LayoutAnimation`, the client card's expand toggle, FlatList callbacks, and `console`/`Alert` output.
- ClientListScreen.HomeScreen.OnPageOrSearchChange: the effect also re-runs whenever `fetchClientes` is rebuilt, i.e. after every change of `isFetching` or `hasMore`. So after every completion, without end while `hasMore` holds, the screen requests the current page again: page 1 is replaced again and again, later pages are appended again and again, and a failure is retried every time. That re-run is not modelled, so `TwoPagesAppend` and `FailureThenRetry` show the modelled order of events, not every request the screen makes.
- Paging.Offset: `page` and `limit` are JavaScript numbers (doubles) but are modelled as unbounded integers, so fractional, NaN or very large values and their rounding are not modelled.
- Async interleaving: the `useCallback` closure that captures stale `isFetching`/`hasMore` values is not modelled. Events run one after another; the effect of a page or search change is one call of `OnPageOrSearchChange`.
- ProductRepository.GetProduct: the offset that `getproduct` computes and never uses is not modelled, because it has no effect.
- LoginRoute.Login: `cpf` and `senha` are modelled as optional strings, because JSON bodies that carry other value types (numbers, booleans) are outside the model. A JSON `null` credential is read as absent, so the model's 400 body omits `cadastro`/`password` where the server would send `null`.
- The `senha` field of the login screen, and any value not entered through `handleChangeText`: that field has no change handler in the source.
- The Express wiring (controllers, services, routes, app, server), the `/users` and `/teste` routes, `UserRepository` and `UserService` (a bcrypt comparison in a foreign library), and the product screen (one request that overwrites a list).
- Quote building (quantities, inclusion flags, totals, price parsing, debounce, stale replies): no shown file contains that code.
