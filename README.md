# Top-URL loader, modelled in Dafny

The system reads two tab-separated files into PostgreSQL through JDBC.

- `mapping` pairs a top-level domain with a description.
- `TopURLs` holds the ranking: a position, a domain name, and one or two TLDs per line.

`Database.loadDatabase` builds five tables in a fixed order, each of them dropped (with `CASCADE`) and recreated when it already exists:

- `mapping`;
- the temporary staging table `url_temp`;
- `tld`, the distinct TLD pairs, numbered by their best position;
- `domain`, the distinct domain names;
- `url`, a ranking row referring to `domain` and `tld`.

It then builds three views over them: `top_10_urls`, `top_10_tlds` and `top_10_repeated_domains`.

The model has three layers.

- **The catalog** (`Catalog`) holds the database's tables and views and the lifecycle of the `Table` and `View` classes: `alreadyExists`, `drop`, `create` and `initialise`. It is a class `Database` whose fields are the objects in the catalog and the DDL text sent so far. `DROP … CASCADE` is the function `DropCascade`. The statements sent are rendered by `Ddl`, and `Ddl` parses them back.
- **The data operations** are specified as functions:
  - Java's `String.split("\t")` and `Integer.parseInt` (`JavaText`);
  - the JDBC batching of the two file readers (`Staging`);
  - PostgreSQL's semantics for each `INSERT`: `ON CONFLICT DO NOTHING`, `CHECK`, foreign keys, an atomic batch (`Conflicts`, `Normalise`);
  - the three view queries (`Views`);
  - the relational operators these need: `ORDER BY`, `LIMIT`, `GROUP BY`/`min`, `HAVING count(*) > 1`, joins (`Ordering`).
- **The loader** (`Loader`) has one method per `insertData` and per constructor, and `LoadDatabase` for the whole run. Each method mutates the `Database` and is proved to equal a step function of the old catalog. `LoaderFacts` proves what the run achieves. `Scenario` works a complete run through two small input files.

The program's inputs are parameters. A file is `Option<seq<string>>`, its lines, where `None` means it cannot be opened. The database starts as any catalog of tables and views.

## Model

| member | source | states |
|---|---|---|
| JavaText.SplitAll | Database.java:269 | every field between tabs, empty ones included; no field holds a tab |
| JavaText.DropTrailingEmpty | Database.java:269 | the result is a prefix of the fields, ends in a non-empty field, and everything dropped was empty |
| JavaText.JoinSplitAll | Database.java:269 | joining the tab-separated fields with tabs gives back the line |
| JavaText.SplitAllJoin | Database.java:269 | tab-free fields joined with tabs split back into the same fields |
| JavaText.SplitJoin | Database.java:350 | `split("\t")` undoes a join whose last field is non-empty, or which has one field |
| JavaText.SplitDropsTrailingEmpty | Database.java:350 | a join whose last field is empty splits back without that field (Java drops trailing empty strings) |
| JavaText.SplitIsPrefixOfFields | Database.java:350 | `split` is the full field list with its trailing empty fields removed |
| JavaText.ParseInt | Database.java:351 | a parsed rank is always within Java `int` range |
| JavaText.ParseShow | Database.java:351 | `parseInt` reads back the decimal text of every `int`, negative ones included |
| JavaText.ParseIntRejectsNonDigit | Database.java:351 | a rank field with a non-digit (other than a leading sign) gives `NumberFormatException` |
| Sql.CollectAll | Database.java:348-368 | a successful read yields one row per line |
| Sql.CollectAllSpec | Database.java:348-368 | reading succeeds iff every line parses, each row is its own line's parse, and a failure is the first failing line's error |
| Sql.CollectAllStopsAt | Database.java:348-368 | the first line that throws ends the read with that line's error |
| Sql.DecodeEncode | Database.java:531-535 | reading back rows stored in a table gives the same typed rows |
| Rows.EncodeMapping | Database.java:229 | a mapping row is stored in the table's two columns and read back unchanged |
| Rows.EncodeStaged | Database.java:306-309 | a url_temp row is stored in its four columns and read back unchanged |
| Rows.EncodeTld | Database.java:395 | a tld row is stored in its three columns and read back unchanged |
| Rows.EncodeDomain | Database.java:442 | a domain name is stored in its one column and read back unchanged |
| Rows.EncodeUrl | Database.java:490-495 | a url row is stored in its three columns and read back unchanged |
| Ordering.SortBy | Database.java:563 | `ORDER BY`: the result is sorted by the key and is a permutation of the input |
| Ordering.TopBy | Database.java:563-564 | `ORDER BY … LIMIT n`: min(n, size) rows, sorted, a sub-multiset of the input (no row shown more often than it occurs); no row left out has a smaller key than a row kept |
| Ordering.TopByComplete | Database.java:563-564 | in an input without repeats, a row is shown whenever fewer than n other rows rank no worse |
| Ordering.Distinct | Database.java:445-447 | `GROUP BY` on one column: each value once, exactly the values present |
| Ordering.MinFor | Database.java:398 | `min(pos)` of a group is one of the group's values and no larger than any of them |
| Ordering.CountAboveOne | Database.java:635 | `count(*) > 1` iff two different rows carry the key |
| Ordering.CountPositive | Database.java:635 | a group's count is positive iff the key occurs |
| Ordering.GroupMin | Database.java:398-400 | `GROUP BY` with `min`: the same keys as the input, each once, each with its minimum |
| Ordering.ReorderedGroups | Database.java:398-400 | any reordering of the groups keeps the keys, their uniqueness and their minima |
| Ordering.Filter | Database.java:595-601 | `WHERE`: exactly the rows satisfying the predicate |
| Ordering.FilterCount | Database.java:595-601 | `WHERE` keeps duplicates: a qualifying row occurs as often as in the input, any other row not at all |
| Ordering.FilterAll | Database.java:595-601 | when every row qualifies, `WHERE` returns the input unchanged |
| Ordering.FilterAtMostOne | Database.java:595-601 | a predicate that holds at most at one position selects at most one row |
| Ordering.JoinBy | Database.java:526 | a join holds exactly the combinations of a left row and a right row that match |
| Ordering.PairingsCount | Database.java:526 | one left row forms as many rows as it has matching right rows, each result as often as it is formed |
| Ordering.JoinByCount | Database.java:526 | the join keeps duplicates: a row occurs as often as pairs of the cross product form it |
| Ordering.JoinByOnePartner | Database.java:526 | when each left row has at most one match, the join has one row per left row that has a match |
| Conflicts.InsertIgnore | Database.java:232-233 | `ON CONFLICT DO NOTHING`: the table keeps its rows in front, and every row added was offered |
| Conflicts.InsertIgnoreConsistent | Database.java:229 | a key constraint that held before the insert still holds after it |
| Conflicts.InsertIgnoreMaximal | Database.java:232-233 | every offered row is either inserted or collides with a row that is there |
| Conflicts.InsertIgnoreFirstWins | Database.java:232-233 | an offered row colliding with neither the table nor an earlier offered row is inserted |
| Conflicts.InsertIgnoreNoCollision | Database.java:424 | when nothing collides, the insert appends every offered row |
| Ddl.ParseRender | Database.java:95-118 | each `DROP`/`CREATE` text sent determines its statement: parsing it gives the statement back |
| Ddl.CreateSaysTemp | Database.java:111-115 | the create text starts with `CREATE TEMP TABLE` iff the table is temporary |
| Catalog.DropCascade | Database.java:97 | `DROP … CASCADE` removes the victims and only views otherwise; leaves every other entry unchanged; no remaining view reads a dropped object |
| Catalog.DropCascadeClosed | Database.java:97 | after a cascade every remaining view reads only objects that exist |
| Catalog.DropCascadeAlone | Database.java:199 | when no view reads a victim, the cascade drops exactly the victims |
| Catalog.DropCascadeKeepsViewOfTables | Database.java:97 | a view reading only surviving tables survives the cascade |
| Catalog.DropCascadeDropsOnlyDependents | Database.java:97 | a view that is not a victim is dropped only when something it reads is dropped too |
| Catalog.EffectsKeepClosed | Database.java:60-67 | initialising a table or a view leaves no view reading a missing object |
| Catalog.InitialiseTableSpec | Database.java:60-67 | `initialise` succeeds iff the name is not a view's; on failure nothing changes (`WrongObjectType`); on success the table exists empty with its definition, other tables stay, and other objects are unchanged or dropped |
| Catalog.InitialiseTableTwice | Database.java:60-67 | initialising the same table again on the result succeeds and leaves the catalog as it was |
| Catalog.InitialiseViewSpec | Database.java:162-169 | a table under the view's name makes `CREATE VIEW` fail with nothing changed; a free or view name over existing tables succeeds, with the view in place and other tables kept |
| Catalog.InitialiseViewTwice | Database.java:162-169 | re-initialising the same view on the result succeeds and changes nothing |
| Catalog.InitialiseViewKeepsViewOfTables | Database.java:162-169 | creating a view never removes another view that reads only tables |
| Catalog.Database.TableAlreadyExists | Database.java:76-87 | the loop over the `getTables` listing finds the name iff an object of any kind has exactly that name |
| Catalog.Database.ViewAlreadyExists | Database.java:178-189 | the loop over the `VIEW` listing finds the name iff a view has exactly that name |
| Catalog.Database.DropTable | Database.java:95-99 | sends `DROP TABLE name CASCADE;` and applies its effect |
| Catalog.Database.DropView | Database.java:197-201 | sends `DROP VIEW name CASCADE;` and applies its effect |
| Catalog.Database.CreateTable | Database.java:107-118 | sends the (temporary or not) `CREATE TABLE` text and applies its effect |
| Catalog.Database.CreateView | Database.java:209-213 | sends `CREATE VIEW name AS definition;` and applies its effect |
| Catalog.Database.InitialiseTable | Database.java:60-67 | the catalog and the statements sent are exactly those of the table lifecycle step |
| Catalog.Database.InitialiseView | Database.java:162-169 | the catalog and the statements sent are exactly those of the view lifecycle step |
| Catalog.Database.StoreRows | Database.java:280 | executing a batch replaces that table's rows and changes nothing else |
| Staging.ParseStagedLine | Database.java:349-366 | a parsed ranking line has an `int` position |
| Staging.ParseStagedLineCases | Database.java:349-366 | a line parses iff it has at least three fields and the first is an `int`; otherwise `NumberFormatException` or index out of bounds; `tld2` is the fourth field exactly when there are four fields, else empty |
| Staging.StagedRows | Database.java:348-368 | a successful read gives one url_temp row per line |
| Staging.ParseFormat | Database.java:349-366 | a ranking line written from a row parses back to that row |
| Staging.NoTldLineFails | Database.java:353 | a line with only a position and a domain throws `ArrayIndexOutOfBoundsException` for index 2 |
| Staging.Fields | Database.java:269 | one field list per mapping line |
| Staging.MappingBatch | Database.java:267-278 | the only way binding fails is `setString(3, …)` on a line with three or more fields; one binding per line |
| Staging.MappingBatchOk | Database.java:271-273 | the batch is built iff no line has more than two fields |
| Staging.MappingBatchBindings | Database.java:269-275 | a two-field line binds both parameters; a one-field line keeps the previous description; a line of tabs only (no field) repeats the previous binding |
| Staging.MappingFileRoundTrip | Database.java:264-280 | a mapping file written from rows binds each line to its own row |
| Normalise.BoundRow | Database.java:280 | a batched row executes iff both parameters were set, and then carries them |
| Normalise.MappingInsertKeepsKey | Database.java:229-233 | the mapping insert keeps the rows already there and `tld` stays a key |
| Normalise.MappingInsertCovers | Database.java:232-233 | every TLD in the file ends up in the mapping table |
| Normalise.MappingFirstWins | Database.java:232-233 | the first line for a TLD that is not yet present is the one stored |
| Normalise.TldOf | Database.java:398-400 | tld row i has id i+1 and the i-th pair ranked by best position |
| Normalise.TldIdsDense | Database.java:395-400 | the ids are exactly 1..k, and no (tld1, tld2) pair appears twice |
| Normalise.TldPairsAreStaged | Database.java:398-400 | every tld row is the pair of some url_temp row |
| Normalise.TldCoversStaged | Database.java:398-400 | every url_temp pair has a tld row |
| Normalise.TldOrderedByBestRank | Database.java:398 | a pair whose best position is smaller gets a smaller id |
| Normalise.RankedPairs | Database.java:398-400 | the grouped pairs, each once with its `min(pos)`, sorted by it, covering every pair |
| Normalise.TldRowsConsistent | Database.java:395 | the numbered rows never collide on the key `tld_id` |
| Normalise.DomainsOf | Database.java:445-448 | each url_temp domain name once, and nothing else |
| Normalise.UrlOffer | Database.java:524-528 | the cursor's rows are sorted by position and are exactly the url_temp rows that match a tld row, with that row's id |
| Normalise.UrlOfferRow | Database.java:524-535 | every batched url row is a url_temp row under the id of its pair |
| Normalise.UrlOfferCovers | Database.java:524-535 | every url_temp row is batched under the id of its pair |
| Normalise.ExecuteUrlBatchSpec | Database.java:490-499 | the url batch succeeds iff every position passes `CHECK` and the inserted rows' foreign keys hold; it then stores the `ON CONFLICT DO NOTHING` result |
| Normalise.UrlBatchFailsOnlyOn | Database.java:490-499 | with positions in range and references present, the batch stores the conflict-free insert |
| Views.TopUrls | Database.java:560-564 | `top_10_urls`: min(10, join size) rows, sorted by position, each a url row joined with its tld row, no joined row shown more often than the join holds it |
| Views.UrlJoinSize | Database.java:560-562 | with unique tld ids, `url NATURAL JOIN tld` has exactly one row per url row whose tld id occurs in tld |
| Views.TopUrlsSize | Database.java:560-564 | when every url row's tld id occurs once in tld, `top_10_urls` has min(10, url rows) rows |
| Views.TopUrlsKeepsBest | Database.java:563-564 | a joined row left out of the view has a position no better than any row shown |
| Views.TopTldGroups | Database.java:592-604 | min(10, number of groups) groups, sorted by best position, each a (tld1, tld2, description) group with its minimum and none twice; a group left out ranks no better than any group shown |
| Views.TopTlds | Database.java:592-604 | `top_10_tlds`: min(10, number of groups) rows in ascending best position; row i shows the i-th best group |
| Views.TldEntryOrigin | Database.java:592-601 | each joined entry comes from a url row, its tld row and the mapping row of its rightmost TLD |
| Views.TopTldsRows | Database.java:592-604 | each shown row has a mapping of its rightmost TLD with that description and a url row with that pair; its position is the group's minimum |
| Views.TldGroupRow | Database.java:592-603 | each group has a mapping row of its rightmost TLD with its description and a url row with its pair, and carries the group's least position |
| Views.TopTldListed | Database.java:602-604 | a group is shown whenever fewer than 10 other groups rank no worse |
| Views.TopDomainGroups | Database.java:632-637 | min(10, number of repeated domains) groups, sorted by best position, each a repeated domain with its minimum and none twice; a repeated domain left out ranks no better than any shown |
| Views.TopRepeatedDomains | Database.java:632-637 | `top_10_repeated_domains`: min(10, number of repeated domains) rows in ascending best position; row i shows the i-th best repeated domain |
| Views.RepeatedGroupIsGroup | Database.java:632-635 | a repeated group has count above one and its minimum position |
| Views.RepeatedGroupFacts | Database.java:632-635 | a repeated group's domain appears in two url rows, and its position is that domain's smallest |
| Views.TopRepeatedDomainsRows | Database.java:632-637 | each shown domain appears in at least two url rows, and its best position is its smallest one |
| Views.SingleRowDomainsExcluded | Database.java:635 | a domain with one url row never appears in the view |
| Views.RepeatedGroupExists | Database.java:633-635 | every domain with two url rows has a group `HAVING count(*) > 1` |
| Views.RepeatedGroupsUnique | Database.java:633-635 | the groups `HAVING count(*) > 1` hold no row twice |
| Views.RepeatedDomainListed | Database.java:633-637 | a repeated domain is shown whenever fewer than 10 other repeated domains rank no worse |
| Loader.BindMappingLines | Database.java:264-278 | the read loop builds exactly the batch the binding semantics give |
| Loader.MappingInsertData | Database.java:258-290 | `Mapping.insertData` equals the mapping fill step and sends no DDL |
| Loader.ParseStagedLines | Database.java:345-368 | the scanner loop gives exactly the parsed rows, or the first line's exception |
| Loader.UrlTempInsertData | Database.java:339-379 | `UrlTemp.insertData` equals the url_temp fill step and sends no DDL |
| Loader.TldInsertData | Database.java:422-426 | `Tld.insertData` equals the tld fill step |
| Loader.DomainInsertData | Database.java:470-474 | `Domain.insertData` equals the domain fill step |
| Loader.UrlInsertData | Database.java:521-544 | `Url.insertData` equals the url fill step |
| Loader.NewMapping | Database.java:246-249 | `new Mapping()`: initialise, then insert; its catalog and the DDL it sends |
| Loader.NewUrlTemp | Database.java:327-330 | `new UrlTemp()`: the same for url_temp |
| Loader.NewTld | Database.java:410-413 | `new Tld()`: the same for tld |
| Loader.NewDomain | Database.java:458-461 | `new Domain()`: the same for domain |
| Loader.NewUrl | Database.java:509-512 | `new Url()`: the same for url |
| Loader.CreateLoaderViews | Database.java:775-777 | the three views in order, each step only after the previous one succeeded |
| Loader.LoadStagedTables | Database.java:770-777 | the run from `new UrlTemp()` on |
| Loader.LoadRankedTables | Database.java:771-777 | the run from `new Tld()` on |
| Loader.LoadLinkedTables | Database.java:772-777 | the run from `new Domain()` on |
| Loader.LoadDatabase | Database.java:768-777 | `loadDatabase`: the resulting catalog, the outcome and the exact DDL sequence equal the load function of the old catalog |
| LoaderFacts.InitialiseFresh | Database.java:60-67 | initialising a table whose name is not a view's succeeds and leaves it empty, every other table kept |
| LoaderFacts.CreateOnly | Database.java:60-67 | an object that does not exist yet is created with no `DROP` |
| LoaderFacts.MappingPhaseSpec | Database.java:246-290 | `new Mapping()` succeeds iff the file's contents bind and execute, fails with that error otherwise, and then holds those rows |
| LoaderFacts.UrlTempPhaseSpec | Database.java:327-379 | `new UrlTemp()` succeeds iff every ranking line parses, fails with the first error otherwise, and then holds the rows |
| LoaderFacts.TldFillWrites | Database.java:422-426 | the tld insert over url_temp writes exactly the numbered pairs |
| LoaderFacts.TldPhaseSpec | Database.java:410-426 | `new Tld()` always succeeds and holds the numbered pairs of url_temp |
| LoaderFacts.UniqueDomainsConsistent | Database.java:442 | distinct domain names never collide on the key |
| LoaderFacts.DomainFillWrites | Database.java:470-474 | the domain insert writes exactly the distinct domain names |
| LoaderFacts.DomainPhaseSpec | Database.java:458-474 | `new Domain()` always succeeds and holds the distinct domain names of url_temp |
| LoaderFacts.UrlReferencesHold | Database.java:490-495 | every url row inserted refers to a stored domain and a stored tld id |
| LoaderFacts.LoadedTopUrlsSize | Database.java:560-564 | over the url and tld tables a load writes, `top_10_urls` has min(10, url rows) rows |
| LoaderFacts.UrlPositionsAllowed | Database.java:495 | every batched position passes `CHECK` iff every ranking position is in 1..10000 |
| LoaderFacts.UrlBatchOutcome | Database.java:521-544 | the url batch succeeds iff every position is in 1..10000; it then stores the url contents, and any failure is a `CHECK` violation |
| LoaderFacts.UrlFillReads | Database.java:521-544 | the url fill reads url_temp, tld and domain and stores the batch's result |
| LoaderFacts.UrlPhaseSpec | Database.java:509-544 | `new Url()` succeeds iff all positions are in range, and then holds the url contents; a failure is a `CHECK` violation |
| LoaderFacts.UrlBatchFailsWithCheck | Database.java:490-499 | when the inserted rows' references hold, a failed url batch failed on `CHECK` |
| LoaderFacts.ViewPhaseSpec | Database.java:150-169 | a view over existing tables, under a name no table has, is created |
| LoaderFacts.ViewKept | Database.java:162-169 | creating one loader view keeps an earlier one over tables |
| LoaderFacts.LoaderViewsOverTables | Database.java:557-651 | the three views read only the tables the loader creates |
| LoaderFacts.LaterViewsSpec | Database.java:776-777 | after `top_10_urls`, the other two views are created and all three remain |
| LoaderFacts.CreateViewsSpec | Database.java:775-777 | over the loaded tables the three views are created, and the tables keep their rows |
| LoaderFacts.LoadFromUrlSpec | Database.java:773-777 | from `new Url()` on, the run succeeds iff every position is in 1..10000, with every table filled and the three views created; otherwise it fails on `CHECK` |
| LoaderFacts.LoadFromDomainSpec | Database.java:772-777 | from `new Domain()` on, the same |
| LoaderFacts.LoadFromTldSpec | Database.java:771-777 | from `new Tld()` on, the same |
| LoaderFacts.LoadFromUrlTempSpec | Database.java:770-777 | from `new UrlTemp()` on, a ranking error ends the run with that error; otherwise the same |
| LoaderFacts.LoadSpec | Database.java:768-777 | `loadDatabase` succeeds iff both files load; otherwise it fails with the mapping error, then the ranking error, then a `CHECK` violation; on success every table holds its contents and the three views exist |
| LoaderFacts.LoadAgain | Database.java:768-777 | running `loadDatabase` again over its own result succeeds with the same contents |
| LoaderFacts.LoadInNewSession | Database.java:768-777 | after the session ends and the temporary url_temp is dropped (with its cascade), a new run succeeds with the same contents |
| LoaderFacts.FreshStatements | Database.java:768-777 | on a database without these objects, a successful run sends exactly the eight `CREATE` statements in program order and no `DROP` |
| LoaderFacts.UrlTempStatementsFresh | Database.java:770-777 | on a fresh database, the `CREATE` statements from url_temp on, in order |
| Scenario.StagedFile | Database.java:345-368 | the two-line ranking file gives its two rows in file order |
| Scenario.MappingFile | Database.java:258-290 | the one-line mapping file gives its one row |
| Scenario.TldOfTwo | Database.java:398-400 | two rows with different pairs get ids 1 and 2 in rank order |
| Scenario.UrlContentsTwo | Database.java:521-544 | two staged rows become two url rows under ids 1 and 2 |
| Scenario.DomainsTwo | Database.java:445-448 | two different domain names give a domain table of exactly those two |
| Scenario.TopUrlsTwo | Database.java:560-564 | two url rows show in position order with their TLDs |
| Scenario.TopTldsOne | Database.java:592-604 | only the pair whose rightmost TLD has a mapping shows, with its description |
| Scenario.RepeatedNone | Database.java:632-637 | two url rows with different domains give no repeated domain |
| Scenario.ScenarioTables | Database.java:392-651 | the sample's tld, domain and url tables and its three views, row by row |
| Scenario.ScenarioLoad | Database.java:768-777 | `loadDatabase` on the sample files succeeds from any database without conflicting objects, with those tables and views |

## Left out

- The connection (`connectToDatabase`), `main` and `executeSelect` are not modelled. The catalog is a parameter, and the DDL is a list of strings the `Database` object records.
- `Query` and `Query.print` (the four reports printed after loading) are left out. They are console formatting and have no state the tables depend on.
- File I/O is a parameter: a file is the list of lines read from it, or `None`.
  - For the mapping file, `None` means `FileNotFoundException` or an `IOException` from `readLine`, even part-way through. The exception is caught before `executeBatch`, so `mapping` stays empty and the run goes on (Database.java:264-285).
  - For the ranking file, `None` means only `FileNotFoundException`. `Scanner.hasNextLine` swallows a read error and the loop just ends, so a ranking file that fails part-way is `Some(prefix)`: the lines read so far are batched and stored (Database.java:345-372).
- The `SQLException` caught inside `Url.insertData`'s cursor loop is not modelled. An in-memory cursor over computed rows cannot fail.
- `LoaderFacts.LoadSpec` and every result built on the fills store fields of any length: the whole model leaves out the `VARCHAR(n)` limits (15, 50, 200). A longer field would make PostgreSQL reject the batch.
  - `Loader.MappingFill`, `Loader.UrlTempFill`, `Loader.TldFill`, `Loader.DomainFill` and `Loader.UrlFill` store such a field.
  - So `LoaderFacts.MappingPhaseSpec`, `UrlTempPhaseSpec`, `TldPhaseSpec`, `DomainPhaseSpec`, `UrlPhaseSpec`, `UrlBatchOutcome`, the `LoadFrom…Spec` lemmas, `LoadSpec`, `LoadAgain`, `LoadInNewSession` and `FreshStatements` report success where PostgreSQL would fail.
- `Normalise.RankedPairs` orders pairs with equal `min(pos)` by first occurrence. PostgreSQL leaves the order of ties to `row_number()` unspecified, so the ids of tied pairs are one possible numbering.
- `Normalise.UrlOffer` breaks ties on equal positions by order in the file, where `ORDER BY pos` leaves them unspecified. Because of `ON CONFLICT DO NOTHING`, which of two rows with the same position is stored depends on that order.
- `Normalise.DomainsOf` keeps first-occurrence order instead of `ORDER BY domain_name`. The domain table is a set, and nothing reads its order.
- `Views.TopTlds` and `Views.TopRepeatedDomains` pick the rows of a tie at the tenth place in a stable order that PostgreSQL does not promise.
- `Catalog.Database.TableAlreadyExists` treats the name as a `LIKE` pattern in which `_` matches any character, then compares names exactly. Names holding `%` and the separate schemas of temporary tables (`pg_temp`) are not modelled; a temporary table shares the one name space.
- `JavaText.ParseInt` accepts only ASCII digits, whereas `Integer.parseInt` also accepts other Unicode decimal digits.
- `Normalise.TldOf` numbers any count of pairs, and `LoaderFacts.LoadSpec` treats every such run as a success. `tld_id` is `INT` and `row_number()` is `bigint`. `url_temp.pos` has no `CHECK` and nothing bounds the length of the ranking file, and `tld` is filled before url's `CHECK` applies. So a ranking file with more than 2^31-1 distinct (tld1, tld2) pairs would make tld's `INSERT` fail with integer out of range (Database.java:306-309, 398-400, 424).

Behaviour of the code that the model keeps:

- `loadDatabase` builds five tables: `mapping`, `url_temp`, `tld`, `domain` and `url`.
- A ranking line with a duplicate position is skipped by `ON CONFLICT DO NOTHING` and raises no integrity error. Only an out-of-range position (`CHECK`) makes the url batch fail. Foreign keys always hold for the rows the join produces (`LoaderFacts.UrlReferencesHold`).
- A mapping line is not always one pair. JDBC parameters stay set across `addBatch`, so:
  - a one-field line, the empty line included, reuses the previous description;
  - a line of tabs only has no field and repeats the previous row;
  - a line with three fields or more makes `setString(3, …)` throw;
  - a one-field first line leaves `description` unset, and the batch fails.
- A ranking line with five or more fields is accepted, with an empty `tld2`.
- The view texts end in `;` and `create` appends another `;`. PostgreSQL accepts the empty statement that follows, so the model treats each view as created.
- The views order by ascending position, best first.
