# Game-server hosting backend: authentication and plan listing

This project models the two serverless request handlers of a game-server hosting site, and proves properties of the models.

- **Authentication** (`backend/auth/index.py`) takes an HTTP event. It answers CORS preflight, refuses methods other than POST and checks that an email and a password are present. It then either registers a user or logs one in against the `users` table. Passwords are stored as `salt$digest`, where the digest is the SHA-256 hex digest of the password followed by the salt.
- **Plans** (`backend/plans/index.py`) answers preflight, refuses methods other than GET and returns the active hosting plans, cheapest first.

Layout:

- `Http.dfy`: what both handlers share. This covers JSON string fields, which can be missing, `null` or text. It also covers the `httpMethod` default of `GET` and the response shape: a status, the `Access-Control-Allow-Methods` header and a payload.
- `Strings.dfy`: Python's `str.split` for a single-character separator, with `join` as its inverse. `verify_password` depends on it.
- `Auth.dfy`: `hash_password` and `verify_password` as functions, with lemmas about the stored format and the verify round trip. `UserTable` is a class whose `users` field is a map from email to row. Its `Handle` method is the handler. The `Register` and `Login` methods are its two actions.
- `Plans.dfy`: the plan row, the `WHERE is_active` filter, the `ORDER BY price ASC` ordering (an insertion sort specified as a sorted permutation) and the handler as a pure function of the request method and the table's rows.

The class invariant `UserTable.Valid` says several things:

- each row is keyed by its own email;
- every stored hash splits at `$` into exactly two parts, which `verify_password`'s tuple unpacking needs;
- ids are positive, distinct and below the next sequence value.

Registration preserves the invariant because a freshly made hash always has exactly one `$` (`HashPasswordFormat`).

## Model

| member | source | states |
|---|---|---|
| `Strings.Split` | backend/auth/index.py:17 | `str.split('$')` yields one more piece than the string has separators, and no piece holds the separator |
| `Strings.JoinSplit` | backend/auth/index.py:17 | joining the pieces of any split with the separator restores the original string |
| `Strings.SplitJoin` | backend/auth/index.py:13-17 | splitting a join of separator-free pieces returns exactly those pieces |
| `Auth.HashPassword` | backend/auth/index.py:9-13 | the stored string is the salt, `$`, then the SHA-256 hex digest of the password followed by the salt, with the salt passed in; when neither part holds a `$`, splitting at `$` gives back exactly `[salt, digest]` |
| `Auth.VerifyPassword` | backend/auth/index.py:15-18 | splits the stored hash at `$` and compares the digest of the password plus the stored salt with the stored digest; requires exactly one `$`, where the source raises `ValueError`; succeeds if and only if hashing the password with the stored salt reproduces the stored string |
| `Auth.HashPasswordFormat` | backend/auth/index.py:9-13 | a hash is the 32-hex-digit salt, one `$`, then the 64-hex-digit digest; it contains exactly one `$` and splits back into `[salt, digest]` |
| `Auth.VerifyPasswordAccepts` | backend/auth/index.py:9-18 | a hash made from password `p` accepts candidate `q` if and only if SHA-256 gives the same digest for `q` and `p` under that salt |
| `Auth.VerifyPasswordRoundTrip` | backend/auth/index.py:9-18 | `verify_password(p, hash_password(p))` is true for every password and every 32-hex-digit salt, which is every salt `token_hex(16)` produces |
| `Auth.UserTable.Register` | backend/auth/index.py:69-102 | a known email gives 400 and leaves the table unchanged; a new email adds exactly one row (next id, salted hash, the given name, creation time) and leaves the other rows alone; the reply is 201 with the new row minus its hash; the invariant is kept |
| `Auth.UserTable.Login` | backend/auth/index.py:104-133 | reads only; returns 401 if and only if the email is unknown or the password does not verify, with the same error in both cases; otherwise 200 with the stored row minus its hash |
| `Auth.UserTable.RegisterThenLogin` | backend/auth/index.py:69-133 | registering a new email and then logging in with the same password gives 201 and then 200, and both replies carry the same user data |
| `Auth.UserTable.Handle` | backend/auth/index.py:24-140 | OPTIONS gives 200, an empty body and `POST, OPTIONS`, and touches no state; any other non-POST method, including a missing method (read as GET), gives 405; a missing, null or empty email or password gives 400 before any table access; then come the register and login effects above, and any other action gives 400 with the table unchanged; `full_name` defaults to `''` when absent and is stored as NULL when `null` (`Auth.FullNameOf`, line 70); a missing method reads as GET (`Http.EffectiveMethod`, line 30); email and password must be Python-truthy strings (`Http.Truthy`, line 58); user data in replies is the row without its hash (`Auth.Public`, lines 121-122); a missing body key reads as `{}`, so every field is absent and a POST gets 400 (`Auth.BodyOf`, line 53) |
| `Plans.ActivePlans` | backend/plans/index.py:43-48 | keeps every active row with its multiplicity and no inactive row |
| `Plans.Insert` | backend/plans/index.py:49 | inserting into a price-sorted sequence keeps it sorted and adds exactly that row |
| `Plans.SortByPrice` | backend/plans/index.py:49 | the result is in non-decreasing price order and is a permutation of the input |
| `Plans.ListPlans` | backend/plans/index.py:43-52 | the query result is price-sorted and holds exactly the active rows, each as often as in the table |
| `Plans.Handle` | backend/plans/index.py:11-64 | OPTIONS gives 200, an empty body and `GET, OPTIONS`; a method other than OPTIONS or GET gives 405 with an error body; GET, including a missing method, gives 200 with `success` true and the active plans in price order; as a function of the table it cannot change the table |

## Left out

- Database access is replaced by in-memory tables: `users` is a map field of `UserTable` and the plans table is a sequence argument. The model leaves out `psycopg2` connections, cursors, `commit`, the `DATABASE_URL` lookup and database errors.
- SHA-256 is the function-typed field `sha256`. The model assumes only that it is deterministic and returns 64 lower-case hex digits. The UTF-8 encoding of `password + salt` is folded into `sha256`. Passwords that cannot be encoded, such as a JSON string holding a lone surrogate, make the source raise `UnicodeEncodeError` on register and on login with a known email. A Dafny `string` cannot hold such a character, so these passwords are not modelled.
- `secrets.token_hex(16)` is the `salt` argument of `Handle`, required to be 32 lower-case hex digits.
- The `now` argument stands for `created_at`. This assumes the table gives `created_at` a non-null default, such as the insertion time. No schema is part of this model. Without such a default, `RETURNING created_at` would give NULL, which the model's `createdAt: int` cannot represent.
- The id sequence is the `nextId` field.
- JSON parsing is not modelled. A body field is missing, `null` or a string. The model cannot represent non-string values. The source answers some of those without error: a non-string `action` gets the 400 unknown-action reply, a falsy non-string `email` or `password` (`0`, `false`, `[]`, `{}`) gets 400, and a login with an unknown email gets 401 whatever the password's type. A malformed or `null` body raises an uncontrolled error, but only on POST. OPTIONS and other methods never parse the body. The model does not cover these bodies.
- `Auth.VerifyPassword`: a stored hash without exactly one `$` makes the source raise `ValueError`. The model makes this a precondition, and `UserTable.Valid` guarantees it for every row the model inserts. Rows written to the table by other means are not modelled.
- Concurrency is not modelled. The source checks for an existing email and inserts in two separate statements. The map key makes emails unique, the way a unique constraint on the table would.
- Emails are compared exactly, as SQL `=` compares them. No case folding is modelled.
- Response headers other than `Access-Control-Allow-Methods` and the `isBase64Encoded` flag are not modelled. Error messages are error kinds, not their literal texts, and `json.dumps` serialisation is not modelled.
- `Plans.Handle`: SQL leaves the order of plans with equal prices unspecified. The contract promises only a price-sorted permutation of the active rows. The function itself returns one admissible order, which is stable for ties.
- Plan prices are exact rationals (`real`). This assumes the table's `price` column is numeric and never NULL. No schema is part of this model. A text column would be ordered lexicographically by `ORDER BY price ASC`, and NULL prices would sort last. The price ordering is faithful only under this assumption.
- The browser page (`src/pages/Index.tsx`) is presentational and is not part of this model.
