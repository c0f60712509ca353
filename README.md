# Real-estate price predictor: feature alignment, feedback board and session state

This project models three parts of the Streamlit house-price application (`app.py`) in Dafny
and proves properties of them. The parts are the feature-row encoding and alignment, feedback
submission and display, and the session transitions.

- **Feature alignment** (`Features`). `yn` turns yes/no answers into 1/0. `base_vals` holds the
  eleven numeric and yes/no fields in dict order. `build_features_df` picks the layout of the
  furnishing status from the model's declared input count. Exactly 12 inputs gives one
  label-encoded `furnishingstatus` column (Furnished 0, Semi-Furnished 1, Unfurnished 2). Any other
  count, or none, gives two drop-first one-hot columns. When the model declares its column names,
  every missing name is appended with value 0 and the row is cut down and reordered to exactly
  those names. A row is a sequence of named cells, since a dict and a one-row DataFrame keep
  insertion order. `FeatureRow` states the result without loops. `BuildFeatures` is the imperative
  version, with the padding loop and the column selection, proved equal to it.
- **Feedback board** (`Feedback`). A submission whose text is empty or whitespace-only, as decided
  by Python's `str.strip`, is refused. Otherwise one record is appended, with "Anonymous" for an
  empty name. The board shows the five most recent records, newest first.
- **Session** (`AppSession`). This covers the `page`/`logged_in` transitions of "Get Started" and
  "Confirm Logout", the page dispatch, and "Predict Price". Predict builds the feature row, calls
  the model, and appends a history record only when the model returns a price.

`Text` holds the Python string behaviour these rely on: truthiness (`s or fallback`),
`str.isspace` and `str.strip`. `Wrappers` holds `Option`.

The model's `predict` is a function parameter from the feature row to a price or an error message.
The feedback file is the board's `entries` field. The submission time is a string parameter.

Duplicate names in the model's declared column list need no special assumption. Selecting a label
twice yields that column twice, and the encoded row never repeats a name.

## Model

| member | source | states |
|---|---|---|
| `Text.OrElse` | app.py:323 | The result is the fallback when the string is empty and the string itself otherwise (Python truthiness of `s or d` / `s if s else d`). |
| `Text.IsSpace` | app.py:317 | Space, tab, newline and carriage return are whitespace; digits and ASCII letters are not. The body lists the code points of Python's `str.isspace`. |
| `Text.Strip` | app.py:317 | `strip` never lengthens the text, and a non-empty result starts and ends with non-whitespace. StripEmptyIffBlank and StripIsTrimmedSlice give its full meaning. |
| `Text.StripEmptyIffBlank` | app.py:317 | `text.strip()` is empty exactly when every character of the text is Python whitespace, so the submit test accepts exactly the non-blank texts. |
| `Text.StripIsTrimmedSlice` | app.py:317 | For a non-blank text, `strip` keeps the slice from the first to the last non-whitespace character, and everything it cuts off on either side is whitespace. |
| `Features.Yn` | app.py:191 | The flag is 0 or 1, and it is 1 exactly when the answer is "Yes". |
| `Features.LabelCode` | app.py:201 | The label code of a furnishing status lies in 0..2. |
| `Features.BaseVals` | app.py:192-197 | The base row has exactly the eleven `base_vals` keys, in dict order. |
| `Features.UsesLabelEncoding` | app.py:200 | The test `expected_features and expected_features == len(base_vals)+1` holds exactly when the declared count is present and equals 12. A missing count, 0 or any other value gives the one-hot layout. |
| `Features.Encode` | app.py:199-208 | The encoded row (`vals`) starts with the eleven `base_vals` cells and has 12 columns in the label layout and 13 otherwise. EncodedColumns, LabelLayout and OneHotLayout describe its furnishing columns. |
| `Features.FeatureRow` | app.py:199-214 | With declared names the row's columns are exactly those names. Without them the row has 12 columns for a declared count of 12 and 13 otherwise. UnalignedRow, AlignedRow and AlignedKeepsComputed give its values. |
| `Features.Lookup` | app.py:213 | Reading a present column returns a value that the row pairs with that name. |
| `Features.PadStep` | app.py:210-212 | One step of the padding loop keeps its invariant: after appending a missing name with value 0, every column reads the encoded value, or 0. |
| `Features.PadLoopStep` | app.py:210-212 | One iteration of the padding loop keeps its invariant. If the name is already a column, nothing changes. Otherwise appending it with value 0 keeps the original prefix, and the appended cells remain missing declared names with value 0, no two with the same name. |
| `Features.LookupAppend` | app.py:211-212 | Appending a column (`X_local[c]=0`) adds its name at the end and leaves every existing column's value unchanged. |
| `Features.LookupDistinct` | app.py:213 | In a row without repeated names, looking up a cell's name gives back that cell's value. |
| `Features.EncodedColumns` | app.py:192-208 | The encoded row's columns are the base columns then the furnishing column(s) of the chosen layout, with no name repeated. |
| `Features.LabelLayout` | app.py:200-203 | With 12 declared inputs the row has 12 columns, ending in `furnishingstatus`. Its value is 0, 1 or 2 exactly for Furnished, Semi-Furnished and Unfurnished. |
| `Features.OneHotLayout` | app.py:204-208 | With any other count the row has 13 columns, ending in the two indicators. Each indicator is 0/1, their sum is at most 1, each is 1 exactly for its status, and both are 0 exactly for Unfurnished. |
| `Features.BaseFieldsEncoded` | app.py:191-197 | The numeric columns carry the form's values unchanged. Each yes/no column is 0 or 1, and it is 1 exactly when the answer is "Yes". |
| `Features.UnalignedRow` | app.py:192-209 | Without declared names the row is the encoded one: base columns in dict order, then the furnishing column(s). That is 12 columns in the label layout and 13 otherwise. |
| `Features.Aligned` | app.py:209-213 | The aligned row's columns are exactly the declared names, in order. |
| `Features.AlignedRow` | app.py:209-213 | With declared names the output columns equal that list. A declared name the encoding did not produce reads 0. A computed column not in the list is dropped. |
| `Features.AlignedKeepsComputed` | app.py:210-213 | A declared name that the encoding produced keeps its computed value in the output. |
| `Features.AlignIdempotent` | app.py:209-213 | Aligning an already aligned row to the same names leaves it unchanged. |
| `Features.AddMissingColumns` | app.py:210-212 | The padding loop only appends to the row. The original cells come first, unchanged. Each appended cell is a declared name missing from the row, with value 0, and no name is appended twice. So a row without repeated names stays without repeated names. Afterwards every declared name is a column, and each column reads the encoded value, or 0 for an appended one. |
| `Features.SelectColumns` | app.py:213 | From a row without repeated names, in which every declared name is a column, the selection has one cell per declared name, in order, each carrying that column's value. |
| `Features.AppendedDistinct` | app.py:210-212 | Names without repeats, followed by appended names that are new and do not repeat among themselves, have no repeats. |
| `Features.BuildFeatures` | app.py:199-214 | The imperative build (encode, pad, select) returns exactly `FeatureRow`, so the same input and schema always give the same row. |
| `Feedback.NewEntry` | app.py:322-327 | The record keeps the rating, text and time given. Its name is the given name, or "Anonymous" when that is empty. |
| `Feedback.Reversed` | app.py:344 | `reversed` keeps the length and puts element `k` from the end at position `k`. |
| `Feedback.FeedbackBoard.Load` | app.py:32-39 | The board starts with the stored list, or with an empty list when the file is missing or does not parse. |
| `Feedback.FeedbackBoard.Submit` | app.py:316-335 | A submission is accepted exactly when the text is not blank. If accepted, the list grows by the one new record and earlier entries are unchanged. If refused, the list is unchanged. |
| `Feedback.RecentFeedback` | app.py:340-360 | The display shows min(5, n) entries: the first entries of the reversed list, i.e. the newest first. |
| `Feedback.AcceptedShownFirst` | app.py:329 | After an append, the newest record is shown first, followed by the earlier list newest first. |
| `AppSession.HistoryRecord` | app.py:221-225 | The history record copies area, bedrooms, bathrooms, stories, parking and the price. An empty location is stored as "Unknown". |
| `AppSession.NoticeFor` | app.py:219-227 | A price gives a price notice naming the location, or "your city" when it is empty. An error gives an error notice with the model's message. |
| `AppSession.ScreenFor` | app.py:114-148 | The dispatch shows the Welcome page exactly on the Welcome page. It shows nothing exactly when the page is App but the user is not logged in. |
| `AppSession.Session.constructor` | app.py:18-23 | A new session is logged out, on the Welcome page, with an empty history. |
| `AppSession.Session.GetStarted` | app.py:138-141 | "Get Started" sets `logged_in` and the App page and keeps the history. |
| `AppSession.Session.ConfirmLogout` | app.py:369-372 | "Confirm Logout" clears `logged_in`, returns to the Welcome page and keeps the history. |
| `AppSession.Session.Predict` | app.py:216-227 | The model is asked about `FeatureRow` of the form. The history grows by exactly one record when it returns a price and is unchanged when it fails. The page and login state are untouched, so the session stays in a reachable state. |
| `AppSession.ValidStateRendersPage` | app.py:114-148 | For any session in a state the buttons reach (`Valid`: logged in exactly on the App page), the dispatch renders the tabs when logged in and the Welcome page otherwise, never nothing. |

## Left out

- Rendering: Streamlit layout, tabs, CSS injection, the dark-mode toggle and its `dark_mode` flag, and the `feedback_submitted` flag, which is set but never read. These are presentation only.
- Loading the model with `joblib.load`, and the stop on load failure. The model is an opaque foreign object; its `predict` is a function parameter.
- Price formatting (`f"{pred:,.0f}"`) and parsing it back for the chart. The model holds the price as an integer; formatting is floating-point text.
- The visualization tab (feature-importance sorting, matplotlib plot), CSV export of the history, and the static map. These are charting and I/O.
- `datetime.now()`. The time is a string parameter of `Submit`.
- Reading and rewriting `feedback.json` around each submission, and the lost-update race between concurrent writers. The board's `entries` is the stored list.
- `RecentFeedback` does not model the `fb.get(...)` defaults for stored records missing a field, or the star string. The stored records are typed here.
- The bounds of the number inputs (100-10000 and so on). Widgets enforce them, and the encoding does not depend on them.
- Furnishing status values other than the three choices of its select box. `Furnishing` has only those three values. In the source such a value would raise `KeyError` in `fs_map` only on the label path (app.py:201-202). On the one-hot path (app.py:205-207) it would encode as 0/0, like Unfurnished, with no error. The select box makes both cases unreachable.
