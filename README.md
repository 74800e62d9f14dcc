# Upload pipeline of the pack manager, in Dafny

The pack manager is a single-page web app. It loads content from a web page, a local CSV file
or an S3 object, and queues it against a named "pack". It then sends the content to a remote
embedding service in batches. This project models that upload pipeline in `streamlit_app.py`
and proves properties of it:

- **Normaliser** (`normalizer.dfy`, `format_data_for_pinecone`): a list of strings, or a data
  frame, becomes an ordered sequence of `{id, text}` records with ids `vec1`, `vec2`, …. A frame
  uses its `your_text_column_name` column when it has one. Otherwise each row's values are
  joined by single spaces. Any other shape gives no records.
- **Batcher** (`batching.dfy`): the slice comprehension with batch size 96. It is proved to
  partition the records.
- **Dispatcher** (`dispatch.dfy`, `upload_to_pinecone`): sends the batches in order and stops
  at the first response with `errorMessage` or the first invocation that raises. The remote
  service is an oracle `service: nat -> Outcome` from the 1-based batch number to that call's
  outcome. The method also returns `invoked`, the invocations attempted, so the model can state
  that later batches are never sent.
- **Pending-upload queue** (`pending.dfy`): the session lists `selected_packs` and
  `uploaded_data`, as a class with two `seq` fields.
- **Pack listing** (`packs.dfy`, `get_current_packs`): the reply of the listing call becomes
  the rows of the packs table.
- `text.dfy` holds the two string operations the normaliser uses: Python's `str(n)` with its
  inverse, and `' '.join` with an inverse on values that contain no space. `scenarios.dfy`
  proves what the pipeline does on any 200-row table whose columns are `name` and `email`.

Behaviour worth noting:

- An unsupported input shape gives an empty record list and logs an error. Nothing is raised
  (streamlit_app.py:409-410).
- The request names the user under `username` (streamlit_app.py:454).
- A failed run returns `None`. Batches that were already accepted are not rolled back.

## Model

| member | source | states |
|---|---|---|
| `Text.NatToString` | streamlit_app.py:394 | the counter in `f"vec{i+1}"` is rendered as a non-empty string of decimal digits with no leading zero |
| `Text.ParseNatToString` | streamlit_app.py:394 | reading the rendering back as a decimal number gives the counter itself (the rendering loses nothing) |
| `Text.JoinWithSpaceLength` | streamlit_app.py:407 | `JoinWithSpace` (`' '.join`): a joined row is exactly as long as its values plus one separator between each pair of neighbours |
| `Text.SplitJoinWithSpace` | streamlit_app.py:407 | `JoinWithSpace` (`' '.join`): when no value contains a space, splitting the joined row text on spaces returns the row's values in column order |
| `Normalizer.IndexOf` | streamlit_app.py:399-400 | finds the text column exactly when its name is among the columns, and gives its first position |
| `Normalizer.VecIdInjective` | streamlit_app.py:393-408 | records at different positions get different `vec` ids |
| `Normalizer.FormatData` | streamlit_app.py:388-410 | the append loops build exactly `Normalize(data)`, the record sequence that models the normaliser's result, for every input shape |
| `Normalizer.NormalizeTextList` | streamlit_app.py:392-394 | a list of n strings gives n records; record k has id `"vec" + (k+1)` and text equal to item k, in order |
| `Normalizer.NormalizeTextColumn` | streamlit_app.py:399-403 | for a table with the text column, one record per row whose text is that column's value, the other columns ignored |
| `Normalizer.NormalizeJoinedRows` | streamlit_app.py:404-408 | for a table without the text column, one record per row whose text is the row's values joined by single spaces in column order |
| `Normalizer.NormalizeEmpty` | streamlit_app.py:389-410 | an unsupported shape and the empty list both give no records |
| `Normalizer.NormalizeIdsDistinct` | streamlit_app.py:393-408 | the ids within one run are pairwise distinct |
| `Normalizer.NormalizeIdsPositional` | streamlit_app.py:393-408 | two inputs with the same number of records get the same id sequence, whatever their text |
| `Batching.BatchesFlatten` | streamlit_app.py:433 | `Batches` (the slice comprehension): concatenating the batches in order gives back the records exactly |
| `Batching.BatchesShape` | streamlit_app.py:432-433 | `Batches`: every batch is non-empty and holds at most the batch size; all but the last hold exactly the batch size |
| `Batching.BatchesCount` | streamlit_app.py:432-434 | `Batches`: there are ceil(n / size) batches, and none exactly when there are no records |
| `Batching.BatchesAt` | streamlit_app.py:433 | `Batches`: batch k is the slice from k·size to (k+1)·size, clamped at the end of the records |
| `Dispatch.DispatchBatches` | streamlit_app.py:447-482 | batch numbers start at 1 and batches are invoked in order; it stops right after the first failing batch, with every earlier batch accepted; it succeeds exactly when all batches are accepted |
| `Dispatch.UploadToPinecone` | streamlit_app.py:419-482 | returns True (`success`; `UploadSucceeds` names this condition) exactly when all ceil(n/96) batches are accepted, and then has invoked all of them; what was sent is a prefix of the normalised records, and all of them on success; every batch sent is non-empty and at most 96 records; empty input means no invocation and True |
| `Dispatch.StopsAtUnique` | streamlit_app.py:447-480 | a failing run can stop at one batch only, the first one not accepted, so the number of invocations is determined by the responses |
| `Dispatch.FailFastOnSecondBatch` | streamlit_app.py:447-480 | with three batches where batch 2 fails, the upload is reported as failed and stops after exactly two invocations; batch 3 is never sent |
| `PendingUploads.PendingQueue.constructor` | streamlit_app.py:273-276 | both session lists start empty |
| `PendingUploads.PendingQueue.AddDataToPack` | streamlit_app.py:279-286 | appends the pack and the data to both lists exactly when a pack is chosen and data is loaded, otherwise changes nothing; the lists stay the same length |
| `PendingUploads.PendingQueue.UploadAll` | streamlit_app.py:289-301 | with both lists non-empty, uploads pair i's data under pack i and the session user, in zip order: the invocations for pair i carry exactly the batches of its normalised records, they send a prefix of those records, and all of them when that result is a success; a failed pair has sent its batches up to and including its first refused one, every earlier one accepted, and none after it. It reports one result per pair (whether that upload succeeds) and then clears both lists whatever the results. Otherwise it only reports the error, sends nothing and changes nothing |
| `PackListing.DatePart` | streamlit_app.py:69 | the date shown is the prefix of `date_created` before its first `'T'`, or all of it when there is none |
| `PackListing.DatePartOfTimestamp` | streamlit_app.py:69 | a timestamp `date + "T" + time` is shown as its date |
| `PackListing.CurrentPacks` | streamlit_app.py:48-79 | one row per listed pack (`ToRow`), in order, with name, description and id copied and the date exactly the part of `date_created` before its first `'T'` (all of it when there is none); no rows when the call raised, the status is not 200, or the body is unreadable |
| `PipelineScenarios.NameEmailTable` | streamlit_app.py:404-434 | a 200-row `[name, email]` table gives 200 records with text `"<name> <email>"`, split into batches of 96, 96 and 8; the upload succeeds exactly when those three batches are accepted |

## Left out

- Login, logout and the session flags (`logged_in`, `access_token`, `username`,
  `logout_trigger`): UI state driven by remote replies. The user name is a parameter of the
  upload.
- The create-pack form and the delete-pack flow, including `display_packs_with_delete`. They are
  remote calls plus widget rendering, and the per-pack delete button only writes a message.
- Every `lambda_client.invoke`, `boto3.Session` and JSON encoding or decoding. The embedding
  service is the outcome oracle. The listing reply is given already decoded.
- The source readers `load_csv`, `load_web` and `load_s3_file`, and their temporary files. They
  are thin wrappers over pandas, a web loader and an S3 download. `load_data.py`, `test.py` and
  `app.py` are not part of this model.
- Splitting web text into overlapping chunks. It is done by an external text splitter whose
  behaviour cannot be seen here.
- The leftover import of the loaders from `test` rather than `load_data`. The normaliser is
  modelled on the shapes it tests for.
- The logging of each record's UTF-8 byte size and of each batch number, record count and
  response. These are diagnostics only.
- Cell values are modelled as their `str()` renderings. How pandas renders numbers, NaN or
  values upcast by `iterrows` is not modelled.
- Data frames are assumed to use the default 0-based row index that `pd.read_csv` assigns. A
  frame with another index would get other ids.
- Data frames are assumed to have distinct column names, as `pd.read_csv` guarantees. Only the
  first column with the text name is consulted.
- In the pack listing, a pack entry with a missing key raises inside the `try` and also gives no
  rows. The model folds every unreadable body into `packs == None` and does not model per-entry
  key errors.
- The `[""] + pack_names` choice list, `st.rerun()` and the reset of
  `show_delete_pack_selectbox` after adding a pair: widget plumbing.
- Dispatch.UploadToPinecone: the oracle gives an outcome per batch number, not per request
  payload. Any fixed schedule of responses can be expressed, but the payload size limit that
  motivates batching is not modelled.
