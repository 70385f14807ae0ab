# Object storage helpers — a Dafny model

The repository is a small set of helpers around an S3-compatible object
store (Oracle Cloud Infrastructure Object Storage reached through boto3).
`s3_basic_operations.py` does the following:

- splits `"bucket/path/to/file"` storage paths for downloads and uploads,
  and picks the local file a download is written to;
- builds public object URLs from the configured endpoint, in the legacy
  format and in the format recommended since 2024;
- lists the files of a bucket page by page;
- clears a bucket with one batch delete per page;
- lists the root "folders" of a bucket;
- filters a CSV object down to the rows whose `value` is below 50 and
  stores the result.

This project models that logic and proves what it computes. Every call
into the storage service is replaced by its answer, given as input. That
covers the pages the paginator yields, the reply to each batch delete and
the parsed CSV file.

Modules, one per file:

- `Outcomes` (`outcomes.dfy`): `Option` and `Result`, standing for `None`
  and for exceptions that are raised or swallowed.
- `PyStrings` (`py_strings.dfy`): the Python string builtins the helpers
  rely on. These are `str.split(sep, 1)`, `str.split(sep)`,
  `str.replace(old, '')`, `str.rstrip(c)` and the POSIX
  `os.path.basename`/`os.path.dirname`. Each is written as CPython
  computes it. Its contract or its lemmas characterise what it returns,
  except that `dirname` is pinned down only for `dir/file` and `/file`
  paths.
- `StoragePaths` (`storage_paths.dfy`): `download_file` and `upload_file`
  up to the SDK call.
- `PublicUrls` (`public_urls.dfy`): the public branches of
  `get_s3_file_url` and `get_s3_file_url_new`. The configured endpoint is
  a parameter.
- `Listing` (`listing.dfy`): `list_files_in_a_basket` and `clear_basket`
  as methods with loops over the fetched pages, each proved against a
  specification function. `list_folders_in_a_basket` is a function.
- `RowFilter` (`row_filter.dfy`): the `value < 50` filter and `transform`.

## Model

| member | source | states |
|---|---|---|
| StoragePaths.ParseStoragePath | s3_basic_operations.py:157-159 | the bucket holds no `/`; with a `/`, bucket, `/` and key rebuild the path; without one the bucket is the whole path and the key is empty |
| StoragePaths.ParseJoinedPath | s3_basic_operations.py:157-159 | parsing `bucket/key` gives back the bucket and the key for any `/`-free bucket, even when the key holds `/` |
| StoragePaths.LocalTarget | s3_basic_operations.py:162-163 | a given local path is kept; otherwise the name is the part of the key after its last `/`, or `downloaded_file` for an empty key, and never holds a `/` |
| StoragePaths.Download | s3_basic_operations.py:157-168 | the directory created before a download is a prefix of the local path, and is empty when the name was derived from the key |
| StoragePaths.DownloadToBaseName | s3_basic_operations.py:157-163 | a nested object downloaded with no local path goes to its file name in the current directory, with no directory created |
| StoragePaths.DownloadCreatesParent | s3_basic_operations.py:166-168 | a download to `dir/file` creates `dir` |
| StoragePaths.FolderKeyGivesEmptyName | s3_basic_operations.py:162-163 | a key ending in `/` yields an empty local name, not `downloaded_file` |
| StoragePaths.Upload | s3_basic_operations.py:188-193 | the upload reads the given local file and targets the bucket before the first `/` and the key after it; a path without `/` targets the whole path as the bucket with an empty key |
| PyStrings.SplitOnce | s3_basic_operations.py:157 | `split('/', 1)` gives one part exactly when there is no separator, else the text before the first separator and the rest |
| PyStrings.Split | s3_basic_operations.py:43 | `split('.')` gives one part more than there are dots; no part holds a dot, and joining the parts back gives the text |
| PyStrings.SplitJoin | s3_basic_operations.py:43 | splitting dot-joined parts that hold no dot gives the parts back |
| PyStrings.RemoveAll | s3_basic_operations.py:43 | `replace(pat, '')` never lengthens the text |
| PyStrings.RemoveAllFirst | s3_basic_operations.py:43 | `replace(pat, '')` keeps the text before the first occurrence, removes that occurrence wherever it starts, and goes on after it, so every occurrence is removed and not only a leading one |
| PyStrings.RemoveAllAbsent | s3_basic_operations.py:43 | `replace` of a pattern that does not occur changes nothing |
| PyStrings.RemoveAllKeepsOthers | s3_basic_operations.py:43 | `replace(pat, '')` keeps every occurrence of a character that `pat` does not hold |
| PyStrings.RStrip | s3_basic_operations.py:240 | `rstrip('/')` gives the longest prefix not ending in `/` that is followed only by `/` |
| PyStrings.TrailingStrippedUnique | s3_basic_operations.py:240 | that characterisation fixes the stripped text uniquely |
| PyStrings.Basename | s3_basic_operations.py:163 | the base name is the `/`-free tail of the path that follows its last `/` |
| PyStrings.Dirname | s3_basic_operations.py:166 | the directory part is a prefix of the path, and empty for a `/`-free path |
| PyStrings.DirnameOfNestedPath | s3_basic_operations.py:166 | the directory part of `dir/file` is `dir` |
| PyStrings.DirnameOfRootFile | s3_basic_operations.py:166 | the directory part of `/file` is the root `/`, not the empty text |
| PublicUrls.EndpointTokens | s3_basic_operations.py:43 | the scheme-stripped endpoint splits into at least one token, none holding a `.` |
| PublicUrls.EndpointLocation | s3_basic_operations.py:43-45 | the namespace and the region are dot-free tokens; the lookup fails with an index error exactly when the endpoint has fewer than three dots |
| PublicUrls.TokenCount | s3_basic_operations.py:43 | removing the schemes keeps every dot, so the endpoint yields one token more than it has dots |
| PublicUrls.LegacyPublicUrl | s3_basic_operations.py:84-92 | the legacy public URL fails, with an uncaught index error, exactly when the endpoint has fewer than three dots |
| PublicUrls.PublicUrl2024 | s3_basic_operations.py:43-52 | the 2024 public URL fails, with an uncaught index error, exactly when the endpoint has fewer than three dots |
| PublicUrls.BothUrlsShareTokens | s3_basic_operations.py:43-49 | both URLs fail together; on success they are their templates filled with endpoint token 0 as the namespace and token 3 as the region |
| PublicUrls.TemplatesDiffer | s3_basic_operations.py:49 | both templates end in the same `/n/…/b/…/o/…` path; the 2024 URL is longer by the namespace plus six characters, so the two never coincide |
| PublicUrls.StandardTokens | s3_basic_operations.py:42-43 | an endpoint of the documented form, with `https://`, `http://` or no scheme, splits into its six host labels |
| PublicUrls.StandardEndpointLocation | s3_basic_operations.py:83-86 | such an endpoint yields its own namespace and region |
| Listing.ListFiles | s3_basic_operations.py:263-280 | the result is every key of every page in page order, pages without `Contents` adding nothing, or the empty list when fetching a page raised |
| Listing.AllKeysLength | s3_basic_operations.py:264-270 | the listing's length is the total number of keys across the pages, the sum of their key-list lengths |
| Listing.AllKeysMembership | s3_basic_operations.py:264-270 | a key is listed exactly when some page lists it |
| Listing.AllKeysAppend | s3_basic_operations.py:267-270 | listing pages one after another is listing each part in turn |
| Listing.ListingIgnoresPageSize | s3_basic_operations.py:264-270 | whatever the page size, the listing of a bucket is its keys, once each, in order |
| Listing.ClearBucket | s3_basic_operations.py:290-311 | the batches sent and the count reported are those of `ClearRun` over the same pages and service; the count, which line 308 prints, is absent when an exception ended the run |
| Listing.ClearRunStopsOnError | s3_basic_operations.py:297-311 | once an exception ends the run, later pages change nothing |
| Listing.CompletedRunFetchedAll | s3_basic_operations.py:297-298 | a clear that ended without an exception fetched every page |
| Listing.NoExceptionWhenServiceNeverRaises | s3_basic_operations.py:297-306 | when every page is fetched and no batch delete raises, the clear ends without an exception |
| Listing.ClearSendsEveryListedKey | s3_basic_operations.py:297-306 | in every run that ended without an exception, one batch was sent per page with keys, holding exactly that page's keys; no batch is empty, and together the batches are the file listing |
| Listing.ClearCountIsReportedTotal | s3_basic_operations.py:295-306 | in every run that ended without an exception, the count is the sum of the `Deleted` lengths the replies report |
| Listing.ClearCountsListedKeys | s3_basic_operations.py:295-306 | when the service deletes all it is sent, the count equals the number of listed files |
| Listing.ListFolders | s3_basic_operations.py:238-240 | no common prefixes (or an exception) gives no folders; otherwise one folder per prefix, that prefix with its trailing `/` stripped |
| Listing.FolderNameFromPrefix | s3_basic_operations.py:240 | the prefix `name/` lists as `name` |
| RowFilter.KeepBelowLimit | s3_basic_operations.py:124 | every kept row has `value < 50` and no rows are added |
| RowFilter.KeptRowsCounted | s3_basic_operations.py:124 | a row below 50 is kept exactly as often as it occurs, and no other row is kept |
| RowFilter.KeptInOrder | s3_basic_operations.py:124 | the kept rows keep their relative order |
| RowFilter.KeepDistributes | s3_basic_operations.py:124 | filtering a concatenation filters each part in turn |
| RowFilter.KeepAllBelow | s3_basic_operations.py:124 | rows all below 50 are kept unchanged |
| RowFilter.KeepIdempotent | s3_basic_operations.py:124 | filtering the output again changes nothing |
| RowFilter.Transform | s3_basic_operations.py:116-145 | nothing is stored when the fetch fails; otherwise the same bucket and the output key are written as `text/csv`, with the source header and exactly the rows below 50, each as often as in the source and in the source's order |
| RowFilter.HeaderOnlyWhenNothingPasses | s3_basic_operations.py:123-129 | when no row is below 50 the stored table is the header alone |

## Left out

- PyStrings.Dirname: its contract only says the result is a prefix of the path, empty when there is no `/`. The exact value is proved only for `dir/file` (`DirnameOfNestedPath`) and `/file` (`DirnameOfRootFile`). Paths with repeated or trailing slashes, such as `a//b` or `d/`, follow the posixpath body but carry no lemma.

- The presigned branches of both URL functions (s3_basic_operations.py:53-65, 93-105). They are signing inside the SDK.
- Client construction and every SDK call are not modelled. This covers `get_object`, `put_object`, `download_file`, `upload_file`, `delete_objects` and the paginator. Their answers are inputs: a sequence of page fetches, a delete service given as a function of the batch index and keys, and a fetch function for the CSV table.
- `delete_file` and `list_baskets` are not modelled. Each is a single SDK call with no logic beyond it.
- `list_folders_in_a_basket` reads only the first page of the delimited listing, as the source does; a bucket with more root folders than one page holds is not covered.
- CSV parsing and serialisation (s3_basic_operations.py:123, 129) are not modelled. The `ContentLength` header is left out with them. A parsed file is a header and rows with an integer `value`. Floating-point and missing values are not modelled, and a file without a `value` column counts as a failed fetch.
- `os.path.exists`/`os.makedirs` and local file writes are not modelled. `Download` gives the directory that is created when it is non-empty and missing.
- All `print` output. The count printed at s3_basic_operations.py:308 is what `ClearBucket` reports.
- The catch-all `except` handlers are modelled only by their effect. Listing gives `[]`; a clear stops and reports no count; a download, upload or transform issues no further request.
- `config.py`, `main.py` and `main_oci.py` are not part of this model. They load the environment and drive the helpers against live clients. The endpoint that `config.py` supplies is a parameter here.
- Malformed storage paths: a path without `/` is not rejected by the code. The bucket is the whole path and the key is empty, and `ParseStoragePath`, `Download` and `Upload` follow the code.
- Empty local names: a key ending in `/` gives an empty local file name, as `os.path.basename` does. `FolderKeyGivesEmptyName` records this.
