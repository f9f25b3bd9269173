# Banked ledger model

A Dafny model of the game-economy ledger that sits under the HTTP handlers of
the Banked backend (`index.js`). The store is an in-memory state machine, the
class `Ledger.Ledger`:

- `accounts`: the `usuarios` table, a map from SERIAL id to an account
  `{nome, email, celular, cpf, saldo, diamantes, vidas, xp, nivel}`;
- `ids`: the ids in table order;
- `history`, `answers`, `withdrawals`: the append-only tables
  `historico_jogos`, `respostas_usuarios` and `saques`;
- `bank`: the question table `perguntas`, which no handler of the core writes.

Each handler is one atomic method. Registration (`Register`), score
submission (`SubmitScore`), question fetch (`FetchQuestions`), answer
registration (`RegisterAnswer`), paid retry (`PaidRetry`) and withdrawal
(`Withdraw`) return a tagged `Result` instead of an HTTP status. The ranking
(`Leaderboard`) returns its entries directly; its only failure is a store
error, which is not modelled. The object invariant `Valid()` keeps the id bookkeeping
consistent, the question ids unique, and every cash balance `saldo` at zero or
above; every mutating method preserves it.

The pure pieces are functions with lemmas: the password rule (`Password`), the
points-to-diamonds conversion (`Scoring`), the eligibility filter of the
question fetch (`Questions`) and the xp ordering of the ranking (`Ranking`).
`Scenarios` holds client runs proved from the method contracts alone.

Modelling choices:

- Money is integer cents; points arrive already parsed (`Scoring.Parsed`:
  NaN or an integer), and `parseInt(pontos) || 0` turns NaN into 0.
- A missing request field is `None`. JavaScript's `!x` is true for undefined,
  null and the empty string, so a required field is present only when it is a
  non-empty string (`Ledger.Truthy`).
- `cpf` and `celular` are bound as NULL when missing, and `cpf = NULL` is never
  true in SQL, so a missing cpf or celular never makes a registration a
  duplicate (`Ledger.Clashes`).
- `ORDER BY RANDOM()` is a caller-supplied shuffle: a list of the positions
  of the n eligible questions, each exactly once (`Ledger.Ledger.IsShuffle`).
  `LIMIT 10` then keeps the first min(10, n) of them. Every outcome of the
  query is reached by some shuffle.
- `ORDER BY xp DESC` leaves the order of equal xp unspecified; the model puts
  the earlier row of the table first (`Ranking.TiesKeepTableOrder`).
- No foreign keys are visible in the code, so none are assumed: a score for an
  unknown user still writes its history row (the UPDATE then touches no row),
  and an answer row is written for any user and question id.

Behaviours of the code that the model keeps as they are:

- Negative points are not clamped. `-250` points give `Math.floor(-2.5) = -3`
  diamonds and `-250` xp, so diamonds and xp can go below zero
  (`Scoring.RewardExamples`, `Scenarios.NegativeScore`).
- The withdrawal handler never checks that `valor` is positive; a negative
  amount passes the balance check and credits the balance
  (`Scenarios.NegativeWithdrawal`).
- Answer registration has no duplicate check, so the same (user, question)
  pair can be logged twice; the eligibility filter is unaffected by repeats.
- `index.js` has no handler for lives, a prize pool or a paid extra
  question, so none of these is part of this model.
- The score, answer, retry and withdrawal handlers answer with a message only, so
  their methods return `Ok(())`. Registration answers with the inserted row;
  `Register` returns its id, and the row is `accounts[id]` as its
  postcondition gives it.

## Model

| member | source | states |
|---|---|---|
| Password.Scan | index.js:41-42 | one pass over the password finds whether every character is in `[0-9a-zA-Z$*&@#]` and whether some character is lower-case, upper-case, or one of `$*&@#`, each flag iff the corresponding quantified fact holds |
| Password.Accepts | index.js:41-48 | the password is accepted iff it has at least 8 characters, all in `[0-9a-zA-Z$*&@#]`, with at least one lower-case letter, one upper-case letter and one of `$*&@#`; no digit is required |
| Password.DigitNotRequired | index.js:41-42 | a password with no digit (`senhaF$rte`) is accepted |
| Password.SpaceRejected | index.js:41-42 | a character outside the class (a space) rejects an otherwise strong password |
| Scoring.DiamondReward | index.js:152 | the reward is the floor of points/100: `100*d <= points < 100*d + 100`, rounding toward minus infinity |
| Scoring.RewardExamples | index.js:151-152 | -250 points give -3 diamonds (not clamped), 250 give 2, 99 give 0, and unparseable points count as 0 |
| Questions.Eligible | index.js:186-190 | the pool holds exactly the bank's questions of the category whose id the user has not answered, is no longer than the bank, and has unique ids when the bank does |
| Questions.AnswerShrinksPool | index.js:188-190 | after one more answer row a question is eligible iff it was before and is not the one this user just answered; the pool never grows, and another user's answer leaves it unchanged |
| Questions.SubsetShrinksPool | index.js:188-190 | a larger answered set never yields a longer pool |
| Questions.EmptyPoolIffAllAnswered | index.js:187-201 | the pool is empty exactly when the user has answered every question of the category |
| Ranking.Insert | index.js:264 | inserting into an xp-descending list keeps it xp-descending and adds exactly the one entry |
| Ranking.SortByXp | index.js:264 | `ORDER BY xp DESC` yields a permutation of the table sorted by xp, highest first |
| Ranking.TiesKeepTableOrder | index.js:264 | for every xp value, the rows with that xp come out of the sort in their table order (the sort is stable), one admissible resolution of the ties SQL leaves open |
| Ranking.PrefixDominates | index.js:264 | in an xp-sorted list, every entry outside the first k, counted with multiplicity, has no more xp than any entry among them |
| Ranking.Top | index.js:263-266 | the ranking has min(50, rows) entries, sorted by xp, a sub-multiset of the table, and every row left out (counted with multiplicity, so a duplicate of a shown row counts) has no more xp than every row shown |
| Ledger.Ledger.Table | index.js:264 | the ranking table has one entry per account: its i-th entry is the entry of the i-th row of `usuarios`, so it holds every account's entry and nothing else |
| Ledger.Ledger.Register | index.js:33-81 | missing nome/email/senha, then a weak password, then a clash on email, cpf or celular each fail with no state change; otherwise exactly one new account with saldo 0, diamantes 0, vidas 5, xp 0, nivel 1 is added under the next id (`nextId` advances by one), no other account changes, and the returned id names that row |
| Ledger.Ledger.SubmitScore | index.js:149-173 | exactly one history row `(usuario_id, jogo, points)` is appended; diamantes grows by floor(points/100) and xp by points, nothing else changes; unparseable points count as 0 and negative points are kept |
| Ledger.Ledger.FetchQuestions | index.js:178-207 | for any shuffle of the eligible rows: fails with AllAnswered iff no question is eligible; otherwise returns min(10, eligible) questions with unique ids, all from the bank and in the category, none with an id that has an answer row of this user, and changes nothing |
| Ledger.Ledger.RegisterAnswer | index.js:212-225 | appends exactly one `(usuario_id, pergunta_id, acertou)` row with no duplicate check and changes nothing else |
| Ledger.Ledger.PaidRetry | index.js:230-256 | an unknown user fails with UserNotFound and fewer than 10 diamonds with InsufficientDiamonds, both with no change; otherwise diamantes drops by exactly 10, stays at zero or above, and nothing else changes |
| Ledger.Ledger.Withdraw | index.js:275-306 | an unknown user fails (the thrown error is caught and rolled back) and saldo < valor fails with InsufficientBalance, both with no change and no withdrawal row; otherwise saldo drops by exactly valor and one `em_analise` row is appended; saldo never goes negative |
| Ledger.Ledger.Leaderboard | index.js:261-270 | returns min(50, accounts) entries sorted by xp, a sub-multiset of the accounts' entries, and every account row left out, counted with multiplicity, has no more xp than any row shown |
| Scenarios.NewPlayer | index.js:61-66 | registering on an empty ledger yields one account seeded with saldo 0, diamantes 0, vidas 5, xp 0 and nivel 1 |

## Left out

- HTTP routing, CORS, JSON parsing, dotenv and the server start: outcomes are a `Result` value, not status codes.
- The `pg` connection pool, SSL settings and SQL text: each statement is its effect on the in-memory state.
- bcrypt hashing and the `/login` handler: a foreign library call; the account does not store the hash.
- `/saldo/:id` and `/`: read-only lookups outside the ledger core.
- Concurrency and atomicity: the check-then-update races of `/quiz/repetir` and `/sacar`, and `BEGIN`/`COMMIT` issued through the pool (possibly on different connections), are not modelled; each handler is one sequential atomic step.
- Ledger.Ledger.FetchQuestions: models `ORDER BY RANDOM()` as any draw of distinct eligible questions, not as a uniform distribution.
- Store failures (connectivity, constraint violations the schema may declare, 32-bit integer overflow of the columns) and the 500 responses they produce, except the unknown-user failure of `/sacar`.
- SERIAL gaps: an id consumed by a failed insert is not modelled; ids are handed out in order.
- `parseFloat` on `saldo` and non-numeric `valor` (which JavaScript compares as NaN and SQL then rejects or nulls): money is integer cents.
- Non-string request fields (numbers, objects): the registration fields are a string or missing.
- Missing `jogo`, `chave_pix`, `usuario_id`, `pergunta_id`, `acertou` or `valor` (bound as NULL): these fields are always present in the model.
- A NULL `pergunta_id` in the answer log, which would make SQL's `NOT IN` exclude every question: answer rows always carry an id.
- Console logging.
