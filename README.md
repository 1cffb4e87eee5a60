# LegacyProcs in Dafny

LegacyProcs manages field-service work:
- service orders (`OrdemServico`);
- clients (`Cliente`);
- technicians (`Tecnico`).

An ASP.NET backend keeps each entity in an SQL Server table behind an ADO.NET repository. Controllers map repository outcomes to HTTP results. An AI-assistant controller forwards texts to a language-model service and filters the technician it suggests. An Angular frontend holds the forms: it validates and masks the CNPJ (the Brazilian company tax id), and offers one button per AI feature.

This project models that core and proves what it promises.

- **Records and paging** (`models.dfy`):
  - the three records as datatypes, with C#'s null strings as `Option<string>` and `DateTime` as an opaque integer instant;
  - `PagedResult` and its derived `TotalPages`, `HasPrevious`, `HasNext`;
  - `Int32` with explicit wrap-around.
- **Tables** (`table.dfy`, `sorting.dfy`, `*_repository.dfy`):
  - each repository is a class whose `rows` field is the table, in clustered-key order, and whose `nextId` is the identity counter;
  - `Valid()` says ids strictly increase and stay below `nextId`;
  - `WHERE ... LIKE '%f%'` is substring containment;
  - `ORDER BY` is a sorted permutation (`Sorting.Sort`, an insertion sort proved sorted and a permutation for any total preorder);
  - the reader loops are `while` loops that copy the ordered result set;
  - `OFFSET/FETCH` is `Table.Page`.
- **Controllers** (`*_controller.dfy`, `http.dfy`, `create_ordem_servico_command.dfy`):
  - each action is a function from the repository's or mediator's reply (`Reply<T>`: a value or an exception) to the response, plus the call it made;
  - "no repository call" can therefore be stated;
  - `GetPaged` is a method that clamps its parameters step by step and calls the repository class; `GetPagedComoEscrito` does the same over the query as written, whose offset wraps in 32 bits;
  - the `...ComRepositorio` methods run `Create`, `Update` and `Delete` against the repository classes.
- **AI assistant** (`ia_assistente_controller.dfy`): the blank-input guards of the four endpoints and the whole decision logic of `SugerirTecnico`. The model's answer is an input.
- **Frontend** (`cnpj.dfy`, `*_component.dfy`):
  - the CNPJ rule, with its weighted-sum loop as a method proved against a specification function;
  - the CNPJ and CEP masks (CEP is the Brazilian postal code);
  - the three form components as classes whose methods update the flags and the form model, with `salvar` returning the action it dispatches;
  - the AI-suggestion button, whose `gerando` flag its methods set and clear.

Text semantics live in `text.dfy`:
- JavaScript's `trim()` white space and .NET's `IsNullOrWhiteSpace` are two separate character sets;
- `OrdinalIgnoreCase` is per-character upper-casing;
- string ordering is code-point lexicographic.

Two test expectations in frontend/src/app/cliente/cliente.component.spec.ts disagree with the code, and the model follows the code:
- `11222333000181` is listed both as rejected (line 62) and as accepted (line 68). The code accepts it (`Cnpj.Valido11222333000181`).
- `07526557000162` is listed as valid (line 106). Its first check digit under the code's rule is 0, not 6, so the code rejects it at cliente.component.ts:262 (`Cnpj.Invalido07526557000162`). The valid number on this base is `07526557000100` (`Cnpj.Valido07526557000100`).

## Model

| member | source | states |
|---|---|---|
| Models.Wrap32 | backend/LegacyProcs/Repositories/OrdemServicoRepository.cs:191 | C# `int` arithmetic: the result is a 32-bit value congruent to the exact one modulo 2^32 |
| Models.TotalPages | backend/LegacyProcs.Tests/Models/PagedResultTests.cs:13-24 | the page count is the least n with n·PageSize ≥ TotalCount (the ceiling of the quotient) |
| Models.HasPrevious | backend/LegacyProcs.Tests/Models/PagedResultTests.cs:26-36 | a page has a previous one exactly when its number is above 1 |
| Models.HasNext | backend/LegacyProcs.Tests/Models/PagedResultTests.cs:38-58 | a page has a next one exactly when its number is below the page count |
| Models.HasNextIffRowsRemain | backend/LegacyProcs.Tests/Models/PagedResultTests.cs:38-58 | HasNext holds exactly when rows remain after the current page (PageNumber·PageSize < TotalCount) |
| Models.PagedResultVectors | backend/LegacyProcs.Tests/Models/PagedResultTests.cs:13-58 | 25 rows at size 10 are 3 pages; page 1 has no previous page and page 2 has one; page 1 of 3 has a next page and page 3 has none |
| Text.Digits | frontend/src/app/cliente/cliente.component.ts:241 | removing every non-digit leaves only digits, never lengthens, and leaves a digit string as it is |
| Text.IsFalsy | frontend/src/app/cliente/cliente.component.ts:238 | JavaScript's `!s`: null or the empty string |
| Text.IsJsBlank | frontend/src/app/cliente/cliente.component.ts:96 | the guard `!s` or `s.trim() === ''`: null, or every character is JavaScript white space |
| Text.IsJsWhitespace | frontend/src/app/cliente/cliente.component.ts:96 | the characters `trim()` removes: the ECMAScript white-space and line-terminator characters |
| Text.IsNullOrWhiteSpace | backend/LegacyProcs/Controllers/IAAssistenteController.cs:68 | .NET's `string.IsNullOrWhiteSpace`: null, or every character is .NET white space |
| Text.IsDotNetWhitespace | backend/LegacyProcs/Controllers/IAAssistenteController.cs:68 | the characters .NET's `char.IsWhiteSpace` accepts: the space separators, tab to carriage return, U+0085, U+2028 and U+2029 |
| Text.DigitsConcat | frontend/src/app/cliente/cliente.component.ts:241 | digit stripping distributes over concatenation |
| Text.DigitsIdempotent | frontend/src/app/cliente/cliente.component.ts:241 | stripping twice is stripping once |
| Text.FalsyIsBlank | frontend/src/app/cliente/cliente.component.ts:96 | a null or empty string also fails the `!s \|\| s.trim() === ''` test |
| Text.ContainsAt | backend/LegacyProcs/Repositories/OrdemServicoRepository.cs:39 | containment holds iff the pattern occurs at some position |
| Text.Contains | backend/LegacyProcs/Repositories/OrdemServicoRepository.cs:39 | `LIKE '%f%'` read without wildcards (also ClienteRepository.cs:39 and TecnicoRepository.cs:39): the needle is a prefix of the text or of one of its suffixes |
| Text.ContainsSelf | backend/LegacyProcs/Repositories/ClienteRepository.cs:39 | every string contains itself, so searching a row's own value finds it |
| Text.ContainsEmpty | backend/LegacyProcs/Controllers/IAAssistenteController.cs:102-103 | every string contains the empty string |
| Text.UpperAll | backend/LegacyProcs/Controllers/IAAssistenteController.cs:80 | case folding keeps the length and maps each character on its own |
| Text.ToUpper | backend/LegacyProcs/Controllers/IAAssistenteController.cs:80 | the per-character fold of `OrdinalIgnoreCase` (also lines 94-95 and 102-103): ASCII and Latin-1 lower-case letters to upper case, every other character unchanged |
| Text.EqualsIgnoreCase | backend/LegacyProcs/Controllers/IAAssistenteController.cs:80 | `Equals(..., OrdinalIgnoreCase)`: the two strings agree once upper-cased |
| Text.ContainsIgnoreCase | backend/LegacyProcs/Controllers/IAAssistenteController.cs:102-103 | `Contains(..., OrdinalIgnoreCase)`: the upper-cased text contains the upper-cased needle |
| Text.EqualsImpliesContainsIgnoreCase | backend/LegacyProcs/Controllers/IAAssistenteController.cs:94-95 | equal ignoring case implies contained ignoring case |
| Text.PrefixContainedIgnoreCase | backend/LegacyProcs/Controllers/IAAssistenteController.cs:102-103 | a string contains each of its prefixes, ignoring case |
| Text.StrLe | backend/LegacyProcs/Repositories/ClienteRepository.cs:34 | the string order of `ORDER BY` (also TecnicoRepository.cs:34): lexicographic on code points, the empty string first |
| Text.StrLeTotal | backend/LegacyProcs/Repositories/TecnicoRepository.cs:34 | any two strings are ordered one way or the other |
| Text.StrLeTransitive | backend/LegacyProcs/Repositories/ClienteRepository.cs:34 | the string order is transitive |
| Sorting.Insert | backend/LegacyProcs/Repositories/OrdemServicoRepository.cs:34 | insertion adds exactly the one element |
| Sorting.InsertSorted | backend/LegacyProcs/Repositories/OrdemServicoRepository.cs:34 | insertion into a sorted sequence keeps it sorted under any total preorder |
| Sorting.Sort | backend/LegacyProcs/Repositories/OrdemServicoRepository.cs:34-39 | `ORDER BY`: the result is sorted and a permutation of the input |
| Sorting.SortMembers | backend/LegacyProcs/Repositories/ClienteRepository.cs:34-39 | sorting neither adds nor drops rows |
| Table.IndexOf | backend/LegacyProcs/Repositories/OrdemServicoRepository.cs:65 | `WHERE Id = @Id` finds a position iff some row has the id, and that row has it |
| Table.Find | backend/LegacyProcs/Repositories/OrdemServicoRepository.cs:65-80 | the row found has the id and is in the table, and there is one iff a row has the id |
| Table.FindUnique | backend/LegacyProcs/Repositories/ClienteRepository.cs:65-80 | with distinct ids, the row found is the one row of the table with that id |
| Table.Remove | backend/LegacyProcs/Repositories/OrdemServicoRepository.cs:143 | `DELETE WHERE Id = @Id` keeps exactly the rows whose id differs |
| Table.RemoveKeepsOrder | backend/LegacyProcs/Repositories/TecnicoRepository.cs:167 | deleting keeps ids increasing and below the identity counter |
| Table.HasIdCons | backend/LegacyProcs/Repositories/TecnicoRepository.cs:89 | id presence splits into first row or the rest |
| Table.RemoveCount | backend/LegacyProcs/Repositories/ClienteRepository.cs:155-162 | deleting an existing id removes exactly one row; deleting a missing id changes nothing |
| Table.FindAppended | backend/LegacyProcs/Repositories/OrdemServicoRepository.cs:89-91 | a row inserted under an unused id is the one found by that id |
| Table.FindRemoved | backend/LegacyProcs/Repositories/OrdemServicoRepository.cs:143 | after deleting an id nothing is found by it |
| Table.AppendKeepsOrder | backend/LegacyProcs/Repositories/TecnicoRepository.cs:113-115 | inserting under the identity counter keeps ids increasing, and the new id was unused |
| Table.ReadAll | backend/LegacyProcs/Repositories/ClienteRepository.cs:48-51 | the reader loop's list holds exactly the query's rows, in the query's order |
| Table.Page | backend/LegacyProcs/Repositories/OrdemServicoRepository.cs:196-198 | `OFFSET o ROWS FETCH NEXT n ROWS` has min(n, max(0, count − o)) rows, the k-th being row o + k |
| Table.RowOnItsPage | backend/LegacyProcs/Repositories/OrdemServicoRepository.cs:191-198 | every row is on the page its index names, at index mod page size |
| Table.PageWithin | backend/LegacyProcs/Repositories/OrdemServicoRepository.cs:196-198 | a page holds no row, counted with repetitions, that the ordered result does not hold |
| OrdemServicoRepo.Selecionadas | backend/LegacyProcs/Repositories/OrdemServicoRepository.cs:32-42 | exactly the rows with no filter or whose Titulo contains the filter |
| OrdemServicoRepo.Combina | backend/LegacyProcs/Repositories/OrdemServicoRepository.cs:39 | `WHERE Titulo LIKE '%f%'`, skipped for a null or empty filter |
| OrdemServicoRepo.SemFiltroTodas | backend/LegacyProcs/Repositories/OrdemServicoRepository.cs:32-35 | a null or empty filter keeps every row, in table order |
| OrdemServicoRepo.MaisRecentePrimeiroOrdena | backend/LegacyProcs/Repositories/OrdemServicoRepository.cs:34 | `DataCriacao DESC` is a total preorder |
| OrdemServicoRepo.MaisRecentePrimeiro | backend/LegacyProcs/Repositories/OrdemServicoRepository.cs:34 | `ORDER BY DataCriacao DESC`: a row may come before another when it was created no earlier |
| OrdemServicoRepo.Listagem | backend/LegacyProcs/Repositories/OrdemServicoRepository.cs:32-42 | the selected rows, newest first, each once |
| OrdemServicoRepo.Inserida | backend/LegacyProcs/Repositories/OrdemServicoRepository.cs:89-102 | the inserted row holds the given Titulo, Descricao, Tecnico, Status and DataCriacao, the new id, and no DataAtualizacao |
| OrdemServicoRepo.Atualizada | backend/LegacyProcs/Repositories/OrdemServicoRepository.cs:114-132 | the updated row takes Titulo, Descricao, Tecnico, Status and the clock's DataAtualizacao, and keeps Id and DataCriacao |
| OrdemServicoRepo.OffsetComoEscrito | backend/LegacyProcs/Repositories/OrdemServicoRepository.cs:191 | the offset as written: the exact product reduced to 32 bits |
| OrdemServicoRepo.OffsetComoEscritoTransborda | backend/LegacyProcs/Repositories/OrdemServicoRepository.cs:191 | for page 214748366 of size 10 the 32-bit offset is negative although the exact one is not |
| OrdemServicoRepo.OffsetComoEscritoVoltaAoInicio | backend/LegacyProcs/Repositories/OrdemServicoRepository.cs:191 | for page 429496731 of size 10 the 32-bit offset is 4 while the exact one is 4294967300 |
| OrdemServicoRepo.PaginaComoEscritoErrada | backend/LegacyProcs/Repositories/OrdemServicoRepository.cs:191-198 | on any listing of 5 to 4294967300 rows, the page at the 32-bit offset of page 429496731 (size 10) differs from the page at the exact offset |
| OrdemServicoRepo.OffsetExatoNaoNegativo | backend/LegacyProcs/Controllers/OrdemServicoController.cs:64-69 | for page number and size of at least 1 the exact offset is never negative |
| OrdemServicoRepo.OrdemServicoRepository.constructor | backend/LegacyProcs/Repositories/OrdemServicoRepository.cs:21-57 | an empty table is valid |
| OrdemServicoRepo.OrdemServicoRepository.GetAll | backend/LegacyProcs/Repositories/OrdemServicoRepository.cs:21-57 | `GetAllAsync`: the reader loop returns the filtered rows, newest first, each once |
| OrdemServicoRepo.OrdemServicoRepository.GetById | backend/LegacyProcs/Repositories/OrdemServicoRepository.cs:59-81 | the row with that id, or null exactly when there is none |
| OrdemServicoRepo.OrdemServicoRepository.Create | backend/LegacyProcs/Repositories/OrdemServicoRepository.cs:83-105 | one row appended under a previously unused id, which is returned, and found afterwards by it |
| OrdemServicoRepo.OrdemServicoRepository.Update | backend/LegacyProcs/Repositories/OrdemServicoRepository.cs:107-135 | true iff the id exists; only that row changes, as `Atualizada` says |
| OrdemServicoRepo.OrdemServicoRepository.Delete | backend/LegacyProcs/Repositories/OrdemServicoRepository.cs:137-153 | true iff the id existed; only that row goes, and it is not found afterwards |
| OrdemServicoRepo.OrdemServicoRepository.GetPaged | backend/LegacyProcs/Repositories/OrdemServicoRepository.cs:155-229 | the corrected query, with the offset computed exactly rather than in 32 bits: fails exactly on a negative offset or a size below 1; otherwise the items are the offset slice of the newest-first listing, sorted and drawn from the selected rows, and TotalCount counts every selected row |
| OrdemServicoRepo.OrdemServicoRepository.GetPagedComoEscrito | backend/LegacyProcs/Repositories/OrdemServicoRepository.cs:155-229 | the query as written: fails exactly when the 32-bit offset is negative or the size is below 1; otherwise the items are the slice of the newest-first listing that starts at the 32-bit offset |
| OrdemServicoRepo.OrdemServicoRepository.PaginaNoOffset | backend/LegacyProcs/Repositories/OrdemServicoRepository.cs:187-228 | `OFFSET @Offset ROWS FETCH NEXT @PageSize ROWS ONLY` for a given offset: refused on a negative offset or a size below 1, otherwise the offset slice of the listing, sorted newest first and drawn from the selected rows, with the slice's length formula |
| OrdemServicoRepo.ListagemSemFiltro | backend/LegacyProcs/Repositories/OrdemServicoRepository.cs:32-35 | without a filter the listing holds every row |
| ClienteRepo.Selecionados | backend/LegacyProcs/Repositories/ClienteRepository.cs:32-42 | exactly the rows with no search text or whose RazaoSocial or CNPJ contains it |
| ClienteRepo.Combina | backend/LegacyProcs/Repositories/ClienteRepository.cs:39 | `WHERE RazaoSocial LIKE '%b%' OR CNPJ LIKE '%b%'`, skipped for a null or empty search |
| ClienteRepo.SemBuscaTodos | backend/LegacyProcs/Repositories/ClienteRepository.cs:32-35 | a null or empty search keeps every row |
| ClienteRepo.PorRazaoSocialOrdena | backend/LegacyProcs/Repositories/ClienteRepository.cs:34 | `ORDER BY RazaoSocial` is a total preorder |
| ClienteRepo.PorRazaoSocial | backend/LegacyProcs/Repositories/ClienteRepository.cs:34 | `ORDER BY RazaoSocial`: the string order on RazaoSocial |
| ClienteRepo.Listagem | backend/LegacyProcs/Repositories/ClienteRepository.cs:32-42 | the selected rows, ordered by RazaoSocial, each once |
| ClienteRepo.Atualizado | backend/LegacyProcs/Repositories/ClienteRepository.cs:118-144 | the nine editable fields come from the request; Id and DataCadastro keep their stored values |
| ClienteRepo.ClienteRepository.constructor | backend/LegacyProcs/Repositories/ClienteRepository.cs:21-57 | an empty table is valid |
| ClienteRepo.ClienteRepository.GetAll | backend/LegacyProcs/Repositories/ClienteRepository.cs:21-57 | the reader loop returns the selected rows ordered by RazaoSocial |
| ClienteRepo.ClienteRepository.GetById | backend/LegacyProcs/Repositories/ClienteRepository.cs:59-81 | the row with that id, or null exactly when there is none |
| ClienteRepo.ClienteRepository.Create | backend/LegacyProcs/Repositories/ClienteRepository.cs:83-110 | the client is appended under a fresh id, which is returned |
| ClienteRepo.ClienteRepository.Update | backend/LegacyProcs/Repositories/ClienteRepository.cs:112-147 | true iff the id exists; only that row changes, and its DataCadastro stays |
| ClienteRepo.ClienteRepository.Delete | backend/LegacyProcs/Repositories/ClienteRepository.cs:149-165 | true iff the id existed; only that row goes |
| ClienteRepo.ListagemSemBusca | backend/LegacyProcs/Repositories/ClienteRepository.cs:32-35 | without a search the listing holds every row |
| ClienteRepo.BuscaPorCnpjEncontra | backend/LegacyProcs/Repositories/ClienteRepository.cs:37-42 | searching for a client's own CNPJ lists that client |
| TecnicoRepo.Selecionados | backend/LegacyProcs/Repositories/TecnicoRepository.cs:32-42 | exactly the rows with no filter or whose Nome or non-null Especialidade contains it |
| TecnicoRepo.Combina | backend/LegacyProcs/Repositories/TecnicoRepository.cs:39 | `WHERE Nome LIKE '%f%' OR Especialidade LIKE '%f%'`, a null Especialidade matching nothing, skipped for a null or empty filter |
| TecnicoRepo.SemFiltroTodos | backend/LegacyProcs/Repositories/TecnicoRepository.cs:32-35 | a null or empty filter keeps every row |
| TecnicoRepo.Ativos | backend/LegacyProcs/Repositories/TecnicoRepository.cs:67 | exactly the rows with Status "Ativo" |
| TecnicoRepo.PorNomeOrdena | backend/LegacyProcs/Repositories/TecnicoRepository.cs:34 | `ORDER BY Nome` is a total preorder |
| TecnicoRepo.PorNome | backend/LegacyProcs/Repositories/TecnicoRepository.cs:34 | `ORDER BY Nome`: the string order on Nome |
| TecnicoRepo.Listagem | backend/LegacyProcs/Repositories/TecnicoRepository.cs:32-42 | the selected rows ordered by Nome, each once |
| TecnicoRepo.ListagemDisponiveis | backend/LegacyProcs/Repositories/TecnicoRepository.cs:67 | the active rows ordered by Nome, each once |
| TecnicoRepo.Atualizado | backend/LegacyProcs/Repositories/TecnicoRepository.cs:138-156 | Nome, Email, Telefone, Especialidade and Status come from the request; Id and DataCadastro stay |
| TecnicoRepo.TecnicoRepository.constructor | backend/LegacyProcs/Repositories/TecnicoRepository.cs:21-57 | an empty table is valid |
| TecnicoRepo.TecnicoRepository.GetAll | backend/LegacyProcs/Repositories/TecnicoRepository.cs:21-57 | the reader loop returns the selected rows ordered by Nome |
| TecnicoRepo.TecnicoRepository.GetDisponiveis | backend/LegacyProcs/Repositories/TecnicoRepository.cs:59-81 | the reader loop returns the active rows ordered by Nome |
| TecnicoRepo.TecnicoRepository.GetById | backend/LegacyProcs/Repositories/TecnicoRepository.cs:83-105 | the row with that id, or null exactly when there is none |
| TecnicoRepo.TecnicoRepository.Create | backend/LegacyProcs/Repositories/TecnicoRepository.cs:107-130 | the technician is appended under a fresh id, which is returned |
| TecnicoRepo.TecnicoRepository.Update | backend/LegacyProcs/Repositories/TecnicoRepository.cs:132-159 | true iff the id exists; only that row changes, and its DataCadastro stays |
| TecnicoRepo.TecnicoRepository.Delete | backend/LegacyProcs/Repositories/TecnicoRepository.cs:161-177 | true iff the id existed; only that row goes |
| TecnicoRepo.ListagemSemFiltro | backend/LegacyProcs/Repositories/TecnicoRepository.cs:32-35 | without a filter the listing holds every row |
| TecnicoRepo.DisponiveisSaoAtivosDaListagem | backend/LegacyProcs/Repositories/TecnicoRepository.cs:67-77 | the available technicians are exactly the active ones of the unfiltered listing |
| Http.StatusCode | backend/LegacyProcs/Controllers/OrdemServicoController.cs:45-49 | each result kind has its own status class: 2xx for success, 404, 400 and 500 |
| Http.FromLookup | backend/LegacyProcs/Controllers/ClienteController.cs:56-68 | null is 404, a row is 200 with that row, an exception is 500 |
| Http.FromSuccess | backend/LegacyProcs/Controllers/ClienteController.cs:116-128 | false is 404, true is 204, an exception is 500 |
| Http.FromListing | backend/LegacyProcs/Controllers/ClienteController.cs:31-44 | the rows are 200, an exception is 500 |
| CreateOrdemServico.Handle | backend/LegacyProcs/Application/Commands/CreateOrdemServicoCommand.cs:30-48 | the stored record has status "Aberta", the command's texts (a null Descricao included) and the clock's time; the handler returns the repository's id |
| OrdemServicoCtl.GetAll | backend/LegacyProcs/Controllers/OrdemServicoController.cs:37-50 | the rows are 200, an exception is 500 |
| OrdemServicoCtl.GetPaged | backend/LegacyProcs/Controllers/OrdemServicoController.cs:57-77 | the corrected action, over the exact-offset query: after clamping, pageNumber ≥ 1 and 1 ≤ pageSize ≤ 100, in-range values pass unchanged, a size below 1 becomes 10, and, since the model's repository raises no connection errors, the response is always 200 in the model, with the requested page, sorted newest first and drawn from the selected rows |
| OrdemServicoCtl.GetPagedComoEscrito | backend/LegacyProcs/Controllers/OrdemServicoController.cs:57-77 | the action as written, over the 32-bit-offset query: 500 exactly when the 32-bit offset of the clamped parameters is negative, otherwise 200 with the clamped parameters, the full TotalCount and the page that starts at the 32-bit offset |
| OrdemServicoCtl.PaginaAjustada | backend/LegacyProcs/Controllers/OrdemServicoController.cs:64 | the page number passed on is at least 1 and unchanged when already positive |
| OrdemServicoCtl.TamanhoAjustado | backend/LegacyProcs/Controllers/OrdemServicoController.cs:65-66 | the page size passed on is within 1..100: unchanged inside, 10 below 1, 100 above 100 |
| OrdemServicoCtl.GetById | backend/LegacyProcs/Controllers/OrdemServicoController.cs:85-104 | null from the query is 404, a row is 200, an exception is 500 |
| OrdemServicoCtl.Create | backend/LegacyProcs/Controllers/OrdemServicoController.cs:112-130 | an invalid model is 400 with no command sent; otherwise one command, and 201 with the returned id |
| OrdemServicoCtl.Update | backend/LegacyProcs/Controllers/OrdemServicoController.cs:137-161 | a route id differing from the body's is 400 with no repository call; otherwise false is 404 and true is 204 |
| OrdemServicoCtl.Delete | backend/LegacyProcs/Controllers/OrdemServicoController.cs:168-187 | false is 404, true is 204, an exception is 500 |
| OrdemServicoCtl.CreateComRepositorio | backend/LegacyProcs/Controllers/OrdemServicoController.cs:121-123 | the table becomes the old rows plus one new row under the 201 answer's id, built by the command handler from the command's texts, status "Aberta" and the clock's time; the identity counter advances by one |
| OrdemServicoCtl.UpdateComRepositorio | backend/LegacyProcs/Controllers/OrdemServicoController.cs:141-154 | a mismatched id is 400 and leaves the table untouched; otherwise 204 iff the order existed, the table keeps its length, the row with that id becomes `Atualizada` of the old row and the request, every other row is unchanged, and the identity counter does not move |
| OrdemServicoCtl.DeleteComRepositorio | backend/LegacyProcs/Controllers/OrdemServicoController.cs:173-180 | 204 iff the order existed; the table becomes the old rows without that id, in their order, and the identity counter does not move |
| ClienteCtl.GetAll | backend/LegacyProcs/Controllers/ClienteController.cs:31-44 | the rows are 200, an exception is 500 |
| ClienteCtl.GetById | backend/LegacyProcs/Controllers/ClienteController.cs:51-70 | null is 404, a row is 200, an exception is 500 |
| ClienteCtl.Create | backend/LegacyProcs/Controllers/ClienteController.cs:77-99 | an invalid model is 400 with no call; the stored client gets the clock's DataCadastro, and the 201 body is that client with the returned id |
| ClienteCtl.Update | backend/LegacyProcs/Controllers/ClienteController.cs:106-130 | a mismatched id is 400 with no repository call; otherwise false is 404 and true is 204 |
| ClienteCtl.Delete | backend/LegacyProcs/Controllers/ClienteController.cs:137-156 | false is 404, true is 204, an exception is 500 |
| ClienteCtl.CreateComRepositorio | backend/LegacyProcs/Controllers/ClienteController.cs:86-92 | the table becomes the old rows plus the client of the 201 answer, stored under a fresh id with the clock's time as DataCadastro, and `GetById` returns it; the identity counter advances by one |
| ClienteCtl.UpdateComRepositorio | backend/LegacyProcs/Controllers/ClienteController.cs:110-123 | a mismatched id is 400 and leaves the table untouched; otherwise 204 iff the client existed, the table keeps its length, the row with that id becomes `Atualizado` of the old row and the request, every other row is unchanged, and the identity counter does not move |
| ClienteCtl.DeleteComRepositorio | backend/LegacyProcs/Controllers/ClienteController.cs:142-149 | 204 iff the client existed; the table becomes the old rows without that id, in their order, and the identity counter does not move |
| TecnicoCtl.GetAll | backend/LegacyProcs/Controllers/TecnicoController.cs:31-44 | the rows are 200, an exception is 500 |
| TecnicoCtl.GetDisponiveis | backend/LegacyProcs/Controllers/TecnicoController.cs:51-64 | the rows are 200, an exception is 500 |
| TecnicoCtl.GetById | backend/LegacyProcs/Controllers/TecnicoController.cs:71-90 | null is 404, a row is 200, an exception is 500 |
| TecnicoCtl.Create | backend/LegacyProcs/Controllers/TecnicoController.cs:97-120 | an invalid model is 400 with no call; the stored technician has status "Ativo" whatever was sent, and the clock's DataCadastro; 201 carries it with the returned id |
| TecnicoCtl.Update | backend/LegacyProcs/Controllers/TecnicoController.cs:127-151 | a mismatched id is 400 with no repository call; otherwise false is 404 and true is 204 |
| TecnicoCtl.Delete | backend/LegacyProcs/Controllers/TecnicoController.cs:158-177 | false is 404, true is 204, an exception is 500 |
| TecnicoCtl.CreateComRepositorio | backend/LegacyProcs/Controllers/TecnicoController.cs:106-113 | the table becomes the old rows plus the technician of the 201 answer, stored under a fresh id with status "Ativo", and `GetById` returns it; the identity counter advances by one |
| TecnicoCtl.UpdateComRepositorio | backend/LegacyProcs/Controllers/TecnicoController.cs:131-144 | a mismatched id is 400 and leaves the table untouched; otherwise 204 iff the technician existed, the table keeps its length, the row with that id becomes `Atualizado` of the old row and the request, every other row is unchanged, and the identity counter does not move |
| TecnicoCtl.DeleteComRepositorio | backend/LegacyProcs/Controllers/TecnicoController.cs:163-170 | 204 iff the technician existed; the table becomes the old rows without that id, in their order, and the identity counter does not move |
| IaAssistenteCtl.Encaminhar | backend/LegacyProcs/Controllers/IAAssistenteController.cs:35-55 | a null or white-space text is 400 with no service call; otherwise one call with the text, and its answer or 500 |
| IaAssistenteCtl.GerarDescricao | backend/LegacyProcs/Controllers/IAAssistenteController.cs:35-55 | a blank Titulo is 400 with no call; otherwise the generated text is returned as `descricao`, or a failure is 500 |
| IaAssistenteCtl.AnalisarPrioridade | backend/LegacyProcs/Controllers/IAAssistenteController.cs:127-147 | a blank Descricao is 400 with no call; otherwise the answer as `prioridade`, or 500 |
| IaAssistenteCtl.EstimarTempo | backend/LegacyProcs/Controllers/IAAssistenteController.cs:155-175 | a blank Descricao is 400 with no call; otherwise the answer as `tempo`, or 500 |
| IaAssistenteCtl.Ativos | backend/LegacyProcs/Controllers/IAAssistenteController.cs:79-80 | exactly the technicians whose Status equals "Ativo" ignoring case |
| IaAssistenteCtl.EhAtivo | backend/LegacyProcs/Controllers/IAAssistenteController.cs:80 | a technician is active when its Status equals "Ativo" ignoring case |
| IaAssistenteCtl.AtivosConcat | backend/LegacyProcs/Controllers/IAAssistenteController.cs:79-80 | the filter keeps repository order |
| IaAssistenteCtl.NenhumAtivo | backend/LegacyProcs/Controllers/IAAssistenteController.cs:79-84 | with no active technician the candidate list is empty |
| IaAssistenteCtl.Rotulo | backend/LegacyProcs/Controllers/IAAssistenteController.cs:81 | a candidate is labelled `Nome (Especialidade)`, with "Geral" for a null Especialidade |
| IaAssistenteCtl.Candidatos | backend/LegacyProcs/Controllers/IAAssistenteController.cs:79-82 | one label per active technician, in order |
| IaAssistenteCtl.IndicaNenhumEhConter | backend/LegacyProcs/Controllers/IAAssistenteController.cs:94-95 | the "equals NENHUM" test adds nothing to the "contains nenhum" test |
| IaAssistenteCtl.IndicaNenhum | backend/LegacyProcs/Controllers/IAAssistenteController.cs:94-95 | the answer equals "NENHUM" or contains "nenhum", ignoring case |
| IaAssistenteCtl.NomeConhecido | backend/LegacyProcs/Controllers/IAAssistenteController.cs:102-103 | some technician's Nome, active or not, occurs in the answer ignoring case |
| IaAssistenteCtl.SugerirTecnico | backend/LegacyProcs/Controllers/IAAssistenteController.cs:63-119 | a blank Descricao is 400 with nothing read; no candidates is the fixed "none at the moment" answer with no AI call; a "nenhum" answer or one naming no technician is the fixed "none suitable" answer; otherwise the answer verbatim; every 200 answer is a fixed message or contains some technician's Nome |
| IaAssistenteCtl.SemAtivosNaoChamaIa | backend/LegacyProcs/Controllers/IAAssistenteController.cs:79-88 | with only inactive technicians the AI is not called and the answer is "none at the moment" |
| IaAssistenteCtl.RotuloCandidatoAceito | backend/LegacyProcs/Controllers/IAAssistenteController.cs:81-112 | an answer that repeats a candidate label (and does not mention "nenhum") is returned verbatim |
| IaAssistenteCtl.NomeVazioAceitaTudo | backend/LegacyProcs/Controllers/IAAssistenteController.cs:102-103 | one technician with an empty Nome makes every answer count as naming a technician |
| Cnpj.DigitValue | frontend/src/app/cliente/cliente.component.ts:257 | `parseInt` of a digit lies in 0..9 |
| Cnpj.Dot | frontend/src/app/cliente/cliente.component.ts:254-259 | the weighted-sum loop read declaratively: the sum from position i on of each digit's value times its weight, which `SomaPonderada`'s loop is proved to compute |
| Cnpj.DotPrefix | frontend/src/app/cliente/cliente.component.ts:250-252 | only the leading block of digits takes part in a weighted sum |
| Cnpj.DigitoVerificador | frontend/src/app/cliente/cliente.component.ts:261 | a check digit lies in 0..9, is 0 exactly when the remainder is below 2, and otherwise brings the sum to a multiple of 11 |
| Cnpj.Posicoes | frontend/src/app/cliente/cliente.component.ts:254-259 | the loop's weight sequence has one weight per digit |
| Cnpj.PosicoesPasso | frontend/src/app/cliente/cliente.component.ts:256-259 | each turn of the loop uses the current weight and hands the next one, wrapped from 1 to 9, to the rest |
| Cnpj.PosicoesCiclo | frontend/src/app/cliente/cliente.component.ts:256-258 | the weights count down from 9 to 2 over and over: starting from p, the k-th weight is (p − 2 − k) mod 8 + 2 |
| Cnpj.CicloDaPosicoes | frontend/src/app/cliente/cliente.component.ts:254-259 | a sequence of length n that follows the cycle from p is the loop's weight sequence (the direction the two weight tables use) |
| Cnpj.PosicoesPeloCiclo | frontend/src/app/cliente/cliente.component.ts:254-259 | a sequence of length n is the loop's weight sequence from p exactly when it follows the cycle from p, in both directions |
| Cnpj.PosicoesDoPrimeiro | frontend/src/app/cliente/cliente.component.ts:254-259 | for the 12-digit block the loop's weights are 5,4,3,2,9,8,7,6,5,4,3,2 |
| Cnpj.PosicoesDoSegundo | frontend/src/app/cliente/cliente.component.ts:268-273 | for the 13-digit block they are 6 followed by the first block's weights |
| Cnpj.RestanteEhDot | frontend/src/app/cliente/cliente.component.ts:256-259 | what the loop still has to add from a position on is the weighted sum from there with the generated weights |
| Cnpj.SomaPonderada | frontend/src/app/cliente/cliente.component.ts:253-259 | the `for` loop computes the weighted sum of the block with the wrapping weights |
| Cnpj.ValidarCnpj | frontend/src/app/cliente/cliente.component.ts:237-277 | `validarCNPJ` returns exactly the Receita Federal verdict `EhValido` |
| Cnpj.EhValido | frontend/src/app/cliente/cliente.component.ts:237-277 | the Receita Federal rule: a non-empty input whose digits are fourteen, not all equal, and end in the two check digits the weighted sums give |
| Cnpj.TodosIguais | frontend/src/app/cliente/cliente.component.ts:247 | `/^(\d)\1+$/`: at least two characters, every one equal to the first |
| Cnpj.FormatarCnpj | frontend/src/app/cliente/cliente.component.ts:217-220 | null and "" give ""; 14 digits get the NN.NNN.NNN/NNNN-NN mask; anything else is returned unchanged |
| Cnpj.DigitsSeparados | frontend/src/app/cliente/cliente.component.ts:219 | a one-character separator disappears when digits are stripped |
| Cnpj.DigitsDaMascara | frontend/src/app/cliente/cliente.component.ts:219 | stripping the mask's separators leaves the five digit groups joined |
| Cnpj.FormatarCnpjEmGrupos | frontend/src/app/cliente/cliente.component.ts:217-220 | fourteen digits are cut into groups of 2, 3, 3, 4 and 2 joined by '.', '.', '/' and '-' |
| Cnpj.FormatarCnpjIda | frontend/src/app/cliente/cliente.component.ts:217-220 | stripping non-digits from the masked CNPJ gives back the input |
| Cnpj.FormatarCep | frontend/src/app/cliente/cliente.component.ts:222-225 | null and "" give ""; 8 digits become NNNNN-NNN; anything else is returned unchanged |
| Cnpj.FormatarCepIda | frontend/src/app/cliente/cliente.component.ts:222-225 | stripping non-digits from the masked CEP gives back the input |
| Cnpj.ValidadeSoDependeDosDigitos | frontend/src/app/cliente/cliente.component.ts:241 | the verdict depends only on the digit subsequence |
| Cnpj.MascaraPreservaValidade | frontend/src/app/cliente/cliente.component.spec.ts:74-86 | a masked CNPJ and its bare digits get the same verdict |
| Cnpj.QuatorzeDigitos | frontend/src/app/cliente/cliente.component.ts:244 | any digit count other than 14 is rejected |
| Cnpj.ZerosPassamNosVerificadores | frontend/src/app/cliente/cliente.component.ts:247-276 | fourteen zeros pass both check-digit tests |
| Cnpj.ZerosRejeitados | frontend/src/app/cliente/cliente.component.spec.ts:48 | fourteen zeros are still rejected, by the all-equal rule |
| Cnpj.TodosIguaisRejeitado | frontend/src/app/cliente/cliente.component.spec.ts:47-58 | fourteen copies of any digit are rejected |
| Cnpj.CatorzeDigitos | frontend/src/app/cliente/cliente.component.ts:247-276 | a string of 14 digits is valid iff its digits are not all equal and both check digits match |
| Cnpj.Valido11222333000181 | frontend/src/app/cliente/cliente.component.spec.ts:68 | 11222333000181 is valid |
| Cnpj.Valido11444777000161 | frontend/src/app/cliente/cliente.component.spec.ts:69 | 11444777000161 is valid |
| Cnpj.Valido34028316000103 | frontend/src/app/cliente/cliente.component.spec.ts:70 | 34028316000103 is valid |
| Cnpj.Valido00000000000191 | frontend/src/app/cliente/cliente.component.spec.ts:71 | 00000000000191 is valid |
| Cnpj.Invalido12345678000100 | frontend/src/app/cliente/cliente.component.spec.ts:61 | 12345678000100 is rejected |
| Cnpj.Invalido11222333000171 | frontend/src/app/cliente/cliente.component.spec.ts:63 | 11222333000171 is rejected |
| Cnpj.Invalido07526557000162 | frontend/src/app/cliente/cliente.component.spec.ts:106 | 07526557000162 is rejected by the code's rule |
| Cnpj.Valido07526557000100 | frontend/src/app/cliente/cliente.component.ts:237-277 | on the base 075265570001 of that unit-test number, the check digits 0 and 0 are accepted |
| Cnpj.CnpjAusente | frontend/src/app/cliente/cliente.component.spec.ts:31-32 | null and "" are rejected |
| Cnpj.CnpjCurto | frontend/src/app/cliente/cliente.component.spec.ts:37 | nine digits are rejected |
| Cnpj.CnpjLongo | frontend/src/app/cliente/cliente.component.spec.ts:43 | fifteen digits are rejected |
| Cnpj.MascaraCnpjConhecida | frontend/src/app/cliente/cliente.component.spec.ts:122 | 11222333000181 masks to 11.222.333/0001-81 |
| Cnpj.MascaraVazia | frontend/src/app/cliente/cliente.component.spec.ts:127-128 | "" and null give an empty mask, for the CNPJ and for the CEP |
| Cnpj.MascaraCepConhecida | frontend/src/app/cliente/cliente.component.ts:222-225 | 01310100 masks to 01310-100 |
| Cnpj.InvalidoComLetra | frontend/src/app/cliente/cliente.component.spec.ts:88-91 | a CNPJ with a letter in place of a digit is rejected |
| ClienteTela.FormDe | frontend/src/app/cliente/cliente.component.ts:140-152 | the form receives the client's nine editable fields |
| ClienteTela.ClienteComponent.constructor | frontend/src/app/cliente/cliente.component.ts:18-33 | the form starts hidden, in creation mode, empty |
| ClienteTela.ClienteComponent.LimparFormulario | frontend/src/app/cliente/cliente.component.ts:79-92 | every field "" and no client under edit; the flags stay |
| ClienteTela.ClienteComponent.AbrirFormulario | frontend/src/app/cliente/cliente.component.ts:68-72 | the form is shown, in creation mode, empty |
| ClienteTela.ClienteComponent.FecharFormulario | frontend/src/app/cliente/cliente.component.ts:74-77 | the form is hidden and emptied |
| ClienteTela.ClienteComponent.EditarCliente | frontend/src/app/cliente/cliente.component.ts:140-155 | the client goes under edit, its fields into the form; both flags are set |
| ClienteTela.ClienteComponent.Salvar | frontend/src/app/cliente/cliente.component.ts:94-117 | a blank RazaoSocial, then a blank CNPJ, then an invalid CNPJ stops the save; only a form passing all three reaches `atualizar` (when editing a client) or `criar` |
| OrdemServicoTela.FormDe | frontend/src/app/ordem-servico/ordem-servico.component.ts:119-123 | the form receives the order's Titulo, Descricao and Tecnico |
| OrdemServicoTela.CorpoAtualizacao | frontend/src/app/ordem-servico/ordem-servico.component.ts:132-139 | id, status and creation date come from the original order; the three texts come from the form |
| OrdemServicoTela.EdicaoIntactaDevolveAOrdem | frontend/src/app/ordem-servico/ordem-servico.component.ts:117-139 | saving an untouched edit sends the order's own values back |
| OrdemServicoTela.ComStatus | frontend/src/app/ordem-servico/ordem-servico.component.ts:162 | the copy has the new status and differs from the order in nothing else |
| OrdemServicoTela.StatusClass | frontend/src/app/ordem-servico/ordem-servico.component.ts:205-218 | each of the four known statuses maps to its CSS class, and any other string to "" |
| OrdemServicoTela.StatusClassDistingue | frontend/src/app/ordem-servico/ordem-servico.component.ts:205-218 | the class is non-empty exactly for the known statuses, which all get different classes |
| OrdemServicoTela.OrdemServicoComponent.constructor | frontend/src/app/ordem-servico/ordem-servico.component.ts:19-29 | the form starts hidden, in creation mode, empty |
| OrdemServicoTela.OrdemServicoComponent.LimparFormulario | frontend/src/app/ordem-servico/ordem-servico.component.ts:68-75 | an empty form and no order under edit; the flags stay |
| OrdemServicoTela.OrdemServicoComponent.AbrirFormulario | frontend/src/app/ordem-servico/ordem-servico.component.ts:57-61 | the form is shown, in creation mode, empty |
| OrdemServicoTela.OrdemServicoComponent.FecharFormulario | frontend/src/app/ordem-servico/ordem-servico.component.ts:63-66 | the form is hidden and emptied |
| OrdemServicoTela.OrdemServicoComponent.EditarOrdem | frontend/src/app/ordem-servico/ordem-servico.component.ts:117-126 | the order goes under edit, its texts into the form; both flags are set |
| OrdemServicoTela.OrdemServicoComponent.Salvar | frontend/src/app/ordem-servico/ordem-servico.component.ts:77-94 | a blank Titulo, then a blank Tecnico, stops the save, and Descricao is not checked; a valid form calls `atualizar` iff editing an order, else `criar` |
| TecnicoTela.FormDe | frontend/src/app/tecnico/tecnico.component.ts:122-128 | the form receives all five fields of the technician |
| TecnicoTela.CorpoAtualizacao | frontend/src/app/tecnico/tecnico.component.ts:137-144 | the id comes from the original technician, every other field, status included, from the form |
| TecnicoTela.EdicaoIntactaDevolveOTecnico | frontend/src/app/tecnico/tecnico.component.ts:120-144 | saving an untouched edit sends the technician's own values back |
| TecnicoTela.ComStatus | frontend/src/app/tecnico/tecnico.component.ts:167 | the copy has the new status and differs in nothing else |
| TecnicoTela.StatusClass | frontend/src/app/tecnico/tecnico.component.ts:211-222 | Ativo, Inativo and Férias map to their CSS classes, anything else to "" |
| TecnicoTela.StatusClassDistingue | frontend/src/app/tecnico/tecnico.component.ts:211-222 | the class is non-empty exactly for the known statuses, which all get different classes |
| TecnicoTela.TecnicoComponent.constructor | frontend/src/app/tecnico/tecnico.component.ts:18-30 | the form starts hidden, in creation mode, empty, with status "Ativo" |
| TecnicoTela.TecnicoComponent.LimparFormulario | frontend/src/app/tecnico/tecnico.component.ts:69-78 | every field "" except status "Ativo", and no technician under edit |
| TecnicoTela.TecnicoComponent.AbrirFormulario | frontend/src/app/tecnico/tecnico.component.ts:58-62 | the form is shown, in creation mode, reset |
| TecnicoTela.TecnicoComponent.FecharFormulario | frontend/src/app/tecnico/tecnico.component.ts:64-67 | the form is hidden and reset |
| TecnicoTela.TecnicoComponent.EditarTecnico | frontend/src/app/tecnico/tecnico.component.ts:120-131 | the technician goes under edit, its five fields into the form; both flags are set |
| TecnicoTela.TecnicoComponent.Salvar | frontend/src/app/tecnico/tecnico.component.ts:80-97 | a blank Nome, then an empty Especialidade, stops the save; a valid form calls `atualizar` iff editing a technician, else `criar` |
| TecnicoTela.EspecialidadeDeEspacosPassa | frontend/src/app/tecnico/tecnico.component.ts:82-90 | an Especialidade of spaces would fail the Nome test but passes its own |
| IaSugestoesTela.PedidoPara | frontend/src/app/components/ia-sugestoes/ia-sugestoes.component.ts:41-58 | each known `tipo` selects its own service call with the input text; an unknown one selects none |
| IaSugestoesTela.Valor | frontend/src/app/components/ia-sugestoes/ia-sugestoes.component.ts:62 | the first non-empty one of descricao, especialidade, prioridade, tempo, or "" when there is none |
| IaSugestoesTela.ValorDeRespostaUnica | frontend/src/app/components/ia-sugestoes/ia-sugestoes.component.ts:62 | each one-field response of the backend gives back that field |
| IaSugestoesTela.IaSugestoesComponent.constructor | frontend/src/app/components/ia-sugestoes/ia-sugestoes.component.ts:15-20 | the declared defaults |
| IaSugestoesTela.IaSugestoesComponent.GerarSugestao | frontend/src/app/components/ia-sugestoes/ia-sugestoes.component.ts:27-58 | an empty input or the disabled flag blocks any call and leaves `gerando` as it was; otherwise `gerando` is set and the call for `tipo` is made |
| IaSugestoesTela.IaSugestoesComponent.AoResponder | frontend/src/app/components/ia-sugestoes/ia-sugestoes.component.ts:61-68 | the selected value is emitted and `gerando` is cleared |
| IaSugestoesTela.IaSugestoesComponent.AoFalhar | frontend/src/app/components/ia-sugestoes/ia-sugestoes.component.ts:70-76 | `gerando` is cleared |
| IaSugestoesTela.IaSugestoesComponent.TextoBotao | frontend/src/app/components/ia-sugestoes/ia-sugestoes.component.ts:81-91 | "Gerando..." while generating, else the label of `tipo`, else "Gerar com IA" |
| IaSugestoesTela.IaSugestoesComponent.Icone | frontend/src/app/components/ia-sugestoes/ia-sugestoes.component.ts:93-95 | 'hourglass_empty' exactly while generating, 'auto_awesome' otherwise |

## Left out

- SQL plumbing: connections, parameters, `ExecuteReader`/`ExecuteScalar` and the row mapper. Each table is a sequence of records.
- LIKE wildcards: `%`, `_` and `[` inside the user's filter are not modelled; the filter is a plain substring.
- Database collation: case- and accent-insensitive comparison in `LIKE`, in `Status = 'Ativo'` and in `ORDER BY` is not modelled. Containment and ordering are by code point.
- Ordering ties: rows with equal sort keys may come in any order. The whole listings are therefore specified as sorted permutations; the paged listings are not (see the `GetPaged` lines below).
- Identity overflow: the identity counter never wraps.
- Foreign keys that could make a `DELETE` fail are not modelled; a rejected statement would only appear as an exception (`Threw`).
- Clock reads (`DateTime.Now`) and time: they are parameters and opaque integers.
- Logging is not modelled; neither are the message JSON of 400/500 answers and the `ModelState` rules (model validity is a boolean input).
- The language-model service: `GeminiService`, its prompts and its HTTP call. Its answer or failure is an input; a null answer is not modelled.
- Frontend services, HTTP and subscriptions, snack-bar messages, `confirm()`, list reloading (`carregar*`), `excluir`, and `criar`/`atualizar`/`alterarStatus` beyond the body they send.
- `formatarData` (JavaScript `Date` and time zones) is not modelled.
- Case folding: `OrdinalIgnoreCase` is modelled for ASCII and Latin-1 letters only; other scripts, `ÿ` and `µ` are left as they are.
- `PagedResult.cs` is not part of this model. Its derived properties are defined from the unit tests: `TotalPages` as the ceiling of TotalCount / PageSize.
- `DatabaseFixController.cs`, `TestGeminiController.cs`, `Program.cs`, the EF context, `ConfigurationHelper.cs` and `GetOrdemServicoByIdQuery.cs` are not part of this model.
- An unknown `tipo` in the AI-suggestion button: the source then subscribes to an undefined observable and fails. The model makes no call and leaves `gerando` set.
- Model binding of request bodies is not modelled, so neither is the `Status = "Ativo"` initializer of backend/LegacyProcs/Models/Tecnico.cs:19 for a body without Status. `TecnicoCtl.Create` sets the status itself, as TecnicoController.cs:107 does.
- Objects the source mutates in place (the controller's `cliente`/`tecnico` parameter, the form DTOs) are updated as values.
- OrdemServicoRepo.OrdemServicoRepository.GetAll: states sorted and a permutation of the selected rows, not the database's order among ties.
- ClienteRepo.ClienteRepository.GetAll: states sorted and a permutation of the selected rows, not the database's order among ties.
- TecnicoRepo.TecnicoRepository.GetAll: states sorted and a permutation of the selected rows, not the database's order among ties.
- TecnicoRepo.TecnicoRepository.GetDisponiveis: states sorted and a permutation of the active rows, not the database's order among ties.
- OrdemServicoRepo.OrdemServicoRepository.GetPaged: computes the offset exactly, not in the source's 32-bit arithmetic; the as-written query is `GetPagedComoEscrito` (see Findings). Its items are also cut from the model's own newest-first order (`Sorting.Sort`), so among rows with equal DataCriacao it fixes which fall on a given page, which SQL Server does not promise; the sortedness and sub-multiset clauses are the order-independent part.
- OrdemServicoCtl.GetPaged: the same two points: the exact offset instead of the 32-bit one (the as-written action is `GetPagedComoEscrito`), and a page cut from the model's own order among rows with equal DataCriacao.
- OrdemServicoRepo.OrdemServicoRepository.GetPagedComoEscrito: its page is cut from the model's own order among rows with equal DataCriacao, as for `GetPaged`.
- OrdemServicoCtl.GetPagedComoEscrito: its page is cut from the model's own order among rows with equal DataCriacao, as for `GetPaged`.
- The masked and space-separated CNPJ vectors of the unit tests (`11.222.333/0001-81`, `11 222 333 0001 81`) have no concrete lemmas of their own. They follow from `Cnpj.ValidadeSoDependeDosDigitos` and `Cnpj.MascaraPreservaValidade` together with the bare-digit vectors.

## Findings

| source | as written | input that shows it | evidently intended | confidence | as-written member | corrected member |
|---|---|---|---|---|---|---|
| backend/LegacyProcs/Repositories/OrdemServicoRepository.cs:191 | the offset `(pageNumber - 1) * pageSize` is computed in 32-bit `int` and wraps | pageNumber = 214748366, pageSize = 10: the controller's clamping lets both through, the product wraps to a negative OFFSET, SQL Server rejects it and the request answers 500 (`OrdemServicoRepo.OffsetComoEscritoTransborda`); pageNumber = 429496731, pageSize = 10: the product wraps to 4 and the request silently answers 200 with rows 5 to 14 instead of the page asked for (`OrdemServicoRepo.OffsetComoEscritoVoltaAoInicio`, `OrdemServicoRepo.PaginaComoEscritoErrada`) | the exact offset, computed without overflow (for example in 64 bits), which is never negative for clamped parameters, so every clamped request returns its own (possibly empty) page | not executed | OrdemServicoCtl.GetPagedComoEscrito | OrdemServicoCtl.GetPaged |
