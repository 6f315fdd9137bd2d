# Telegram order bot: the order conversation in Dafny

`telegrambot.py` is a Telegram bot that takes one product order per
conversation. `/start` shows one button per category of the static catalog
`CATEGORIES`. A category button shows that category's products. A product
button asks for a quantity, then a delivery date in `dd-mm-yyyy` form. Next
comes a summary with Confirm and Cancel buttons, and a confirmed order is
appended as one row to `orders.csv`. All conversation state lives in the
per-user dictionary `context.user_data`. Its keys are `category`, `product`,
`state` (`'quantity'`, `'date'`, `'confirm'` or absent), `quantity` and
`delivery_date`.

The model has these parts:

- `Strings`: the Python string operations the bot depends on.
  - `str.isdigit`, as `IsDigitString`.
  - `str.strip`, over the whole `str.isspace` set.
  - `str(int)`, as `IntText`.
  - Zero padding, and splitting on a separator.
- `Callbacks`: button callback data. It is written as `f'{tag}_{value}'` and
  read back with `split('_', 1)[1]`.
- `Dates`: the date step.
  - Parsing is `datetime.strptime(text, '%d-%m-%Y').date()`. This includes
    the one-digit and space-padded days `%d` accepts, the one-digit months
    `%m` accepts, and the Gregorian calendar check.
  - Formatting is `strftime('%d-%m-%Y')`.
  - The pair is characterised as an if-and-only-if: `ParseDateAccepts` with
    `ParseDateOnlySpelled`.
  - `DateExamples` holds concrete dates, including leap days.
- `Catalog`: `CATEGORIES` as an ordered list of entries, and the inline
  keyboards built from it.
- `OrderStore`: `save_order` on an abstract file.
  - The class `OrderLog` has a flag for whether the file exists and the list
    of rows it holds.
  - `AfterSave` is the function that specifies a save.
- `Conversation`: the class `Session` holds one user's `user_data`. Its
  handler methods mutate it in place:
  - `CategoryHandler`
  - `ProductHandler`
  - `MessageHandler`, which calls `QuantityStep` and `DateStep`
  - `ConfirmHandler`, which also takes the log

  A `KeyError` the Python code raises is returned as `Outcome.KeyError(key)`,
  with the state as the code leaves it at that point.
- `Scenarios`: whole conversations driven through the handlers from an empty
  dictionary. Each one states what ends up in the file and in `user_data`.

The model follows the code as written, not an idealised design:

- `start` does not reset `user_data`.
- `product_handler` checks neither the product nor the category.
- `confirm_handler` does not look at `state`.
- The quantity is stored as the stripped text, so `"0"` and `"007"` are
  accepted as they are.
- `category_handler` stores an unknown category before the lookup raises.
- The date step stores the date before the summary reads the other keys.
- A confirmation that raises on a missing key saves nothing and does not
  clear the dictionary.

`Session.Valid()` is the invariant of every state reachable from an empty
dictionary. A stored quantity is a digit string, a stored date is in normal
form, and each state holds the keys set on the way to it: `'quantity'` the
product, `'date'` also the quantity, `'confirm'` all four. A stale product
button can reach `'date'` without a category, and the date step then raises
on it. Every handler preserves the invariant. The lemma `ConfirmKeepsLogWellFormed` shows that confirming from such a
state keeps the file well formed.

## Model

| member | source | states |
|---|---|---|
| Strings.IsDigitString | telegrambot.py:51 | `isdigit` holds exactly for non-empty text made only of digits (both directions) |
| Strings.Strip | telegrambot.py:48 | `strip` returns a slice of the text with only whitespace before and after it, and the result neither starts nor ends with whitespace, so the whitespace at both ends is removed entirely |
| Strings.StripPadded | telegrambot.py:48 | `strip` removes any whitespace around text that has none at its ends, and returns that text unchanged |
| Strings.IntText | telegrambot.py:90-92 | `str(user_id)`: the decimal digits of the id's magnitude, with no leading zero (only 0 itself starts with `0`), and a leading minus sign exactly for negative ids |
| Strings.DecimalText | telegrambot.py:92 | `str(n)` for `n >= 0` is a digit string whose value is `n`, with no leading zero |
| Strings.ZeroPad | telegrambot.py:64 | zero-padded field: exactly `width` digits whose value is `n` |
| Strings.ZeroPadOfDigits | telegrambot.py:60 | every digit string is the zero-padded spelling of its own value at its own width |
| Strings.JoinSplitOn | telegrambot.py:60 | splitting text on a separator and joining the pieces back gives the text |
| Strings.SplitOnJoin | telegrambot.py:60 | splitting the join of separator-free pieces gives back those pieces |
| Callbacks.DecodeCallback | telegrambot.py:30 | `split('_', 1)[1]` fails exactly when there is no underscore, and otherwise returns everything after the first underscore |
| Callbacks.DecodeTagged | telegrambot.py:120-122 | data routed by the pattern `^tag_` decodes to what follows the tag and its underscore |
| Callbacks.DecodeEncode | telegrambot.py:22-30 | decoding `tag_value` gives `value` back, underscores in the value included |
| Callbacks.EncodeDecode | telegrambot.py:120-122 | every routed callback is the encoding of its decoded value |
| Catalog.Names | telegrambot.py:22 | iterating the catalog gives its keys in insertion order |
| Catalog.Lookup | telegrambot.py:32 | `CATEGORIES[name]` fails exactly when the name is not a key, and otherwise returns that key's products |
| Catalog.LookupAt | telegrambot.py:32 | with distinct keys, looking up the i-th key returns the i-th product list |
| Catalog.ButtonColumn | telegrambot.py:32 | one single-button row per item, in order; each is labelled with the item and sends `tag_item`, which decodes back to the item |
| Catalog.StartKeyboardMirrorsCatalog | telegrambot.py:14-22 | the start keyboard lists every category in catalog order; each button sends `category_` and the name, which decodes to a key whose lookup succeeds |
| Catalog.CatalogWellFormed | telegrambot.py:14-17 | category names are distinct and non-empty; every category has products, and they are distinct and non-empty |
| Catalog.ProductsInOneCategory | telegrambot.py:14-17 | no product appears under two categories |
| Dates.DaysInMonth | telegrambot.py:60 | month lengths are 28 to 31 days; there are 29 exactly for February of a leap year |
| Dates.DayField | telegrambot.py:60 | an accepted `%d` field is a day from 1 to 31 |
| Dates.MonthField | telegrambot.py:60 | an accepted `%m` field is a month from 1 to 12 |
| Dates.YearField | telegrambot.py:60 | `%Y` accepts exactly the fields of four digits; the value is 0 to 9999 and the field is its four-digit zero-padded spelling |
| Dates.YearFieldSpelled | telegrambot.py:60 | conversely, every year from 0 to 9999 written with four digits is accepted as itself |
| Dates.ParseDate | telegrambot.py:59-63 | an accepted text is a valid calendar date from year 1 to 9999; anything else is the ValueError path |
| Dates.FormatDate | telegrambot.py:64 | the stored date is ten characters long, with dashes at positions 2 and 5 |
| Dates.ParseDateAccepts | telegrambot.py:60 | every `%d` spelling of the day (two-digit, one-digit, space-padded) and every `%m` spelling of the month, with a four-digit year, parses to the date, provided the date is valid |
| Dates.ParseDateOnlySpelled | telegrambot.py:60 | conversely, every accepted text is one of those spellings of the date it parses to |
| Dates.ParseFormatDate | telegrambot.py:60-64 | the `dd-mm-yyyy` text written for a date parses back to that date |
| Dates.NormalizeIdempotent | telegrambot.py:60-64 | normalising a date twice gives the same text and the same date as normalising it once |
| Dates.FormatDateIsNormal | telegrambot.py:64 | the stored date is in normal form: it parses, and formatting it again gives the same text |
| Dates.FormatDateDigits | telegrambot.py:64 | a date whose day, month and year are the values of the digits of a `dd-mm-yyyy` text is written as exactly that text |
| DateExamples.ThirtyFirstFebruaryRejected | telegrambot.py:60 | `31-02-2024` is rejected |
| DateExamples.LeapDayAccepted | telegrambot.py:60 | `29-02-2024` is accepted |
| DateExamples.LeapCenturyAccepted | telegrambot.py:60 | `29-02-2000` is accepted, because a century divisible by 400 is a leap year |
| DateExamples.CommonYearRejected | telegrambot.py:60 | `29-02-2023` is rejected |
| DateExamples.CommonCenturyRejected | telegrambot.py:60 | `29-02-1900` is rejected, because 1900 is a century not divisible by 400 |
| DateExamples.DayZeroRejected | telegrambot.py:60 | day `00` is rejected |
| DateExamples.YearZeroRejected | telegrambot.py:60 | year `0000` is rejected |
| DateExamples.ChristmasAccepted | telegrambot.py:60 | `25-12-2024` is accepted |
| DateExamples.NewYearAccepted | telegrambot.py:60 | `01-01-2025` is accepted |
| DateExamples.FormatNewYear | telegrambot.py:64 | 1 January 2025 is written `01-01-2025` |
| DateExamples.OneDigitFieldsNormalise | telegrambot.py:60-64 | `1-1-2025` is accepted and stored as `01-01-2025` |
| OrderStore.AfterSave | telegrambot.py:106-113 | a save appends the row, preceded by the header exactly when the file did not exist; the earlier rows are kept as they were |
| OrderStore.HeaderIsNotAnOrder | telegrambot.py:112 | the header row is never an order row |
| OrderStore.SaveKeepsWellFormed | telegrambot.py:106-113 | saving an order row into a well-formed file keeps it well formed; the header is the first row and appears nowhere else |
| OrderStore.OrderLog.SaveOrder | telegrambot.py:106-113 | after the save the file exists and holds `AfterSave` of its old rows |
| Conversation.MissingKey | telegrambot.py:66-70 | no key is reported missing exactly when category, product, quantity and delivery date are all present; otherwise the reported key is the first absent one in that order, the one whose lookup raises first |
| Conversation.Start | telegrambot.py:20-24 | `start` replies with the welcome text and one single-button row per category, in catalog order; each button is labelled with the name and sends `category_` and the name, which decodes back to a key whose lookup succeeds |
| Conversation.SummaryReadsBack | telegrambot.py:66-71 | the summary has one line per key, in the order category, product, quantity, delivery date; each line is the label (`Category`, `Product`, `Quantity`, `Delivery Date`), a colon and the stored value, and splitting on line breaks gives those four lines back when no value holds a line break |
| Conversation.HeaderColumns | telegrambot.py:112 | the header names `user_id`, then category, product, quantity and delivery date in key order, then `created_at` |
| Conversation.OrderRow | telegrambot.py:91-98 | the saved row has one cell per header column: `str` of the user id first, the value of each of category, product, quantity and delivery date in key order (the column of that name, by `HeaderColumns`), and the creation time last |
| Conversation.ConsistentRowIsOrder | telegrambot.py:91-98 | from a reachable, complete dictionary the saved row has six cells, a digit-string quantity and a normal-form date |
| Conversation.ConfirmKeepsLogWellFormed | telegrambot.py:89-99 | confirming from a reachable, complete dictionary keeps the orders file well formed |
| Conversation.Session.CategoryHandler | telegrambot.py:26-34 | stores the decoded category and changes no other key; replies with the product keyboard of a known category, and raises KeyError on an unknown one (after storing it); preserves the invariant |
| Conversation.Session.ProductHandler | telegrambot.py:36-43 | stores the decoded product, sets the state to `'quantity'`, and changes nothing else; preserves the invariant |
| Conversation.Session.MessageHandler | telegrambot.py:45-81 | one clause per branch. Quantity: a digit string is stored and the step moves on; anything else changes nothing. Date: an invalid date changes nothing; a valid one is stored normalised, then either the summary moves to confirmation or a missing key raises. Other states change nothing and reply with the /start hint. Preserves the invariant |
| Conversation.Session.QuantityStep | telegrambot.py:50-56 | the quantity branch alone, on the stripped text |
| Conversation.Session.DateStep | telegrambot.py:58-78 | the date branch alone, on the stripped text |
| Conversation.Session.ConfirmHandler | telegrambot.py:83-104 | 'yes' with all keys present appends exactly the order row (after a header if the file is new) and empties the dictionary; 'yes' with a key missing raises and changes nothing; any other choice empties the dictionary and leaves the file untouched. From a reachable confirmation state it never raises |
| Scenarios.FillOrder | telegrambot.py:26-78 | category, product, valid quantity and valid date from an empty dictionary lead to the confirmation state with all four keys stored |
| Scenarios.ConfirmedOrder | telegrambot.py:83-113 | a full conversation confirmed with 'yes' creates a file holding the header and one row: user id, category, product, stripped quantity, normalised date, timestamp; the dictionary ends empty |
| Scenarios.CancelledOrder | telegrambot.py:101-104 | the same conversation answered with any other choice writes nothing and ends with an empty dictionary |
| Scenarios.RejectedInputs | telegrambot.py:50-63 | a bad quantity and then a bad date each leave the dictionary as it was and give their error replies |
| Scenarios.StaleProductButton | telegrambot.py:36-70 | a product button on an empty dictionary leads, after a valid quantity and date, to a KeyError on `category`, with the date stored and the state still `'date'` |
| Scenarios.StaleConfirmButton | telegrambot.py:89-99 | 'yes' on an empty dictionary raises KeyError on `category` and leaves the file as it was: its existence and its rows |
| Scenarios.PlaceOrder | telegrambot.py:83-113 | one full confirmed order on an empty dictionary is `AfterSave` of that row, and leaves the dictionary empty |
| Scenarios.TwoOrders | telegrambot.py:106-113 | two orders in a row from one user: the header is written once, then the two rows in order |

## Left out

- Telegram transport is left out: `Update`, `query.answer`, `edit_message_text` and `reply_text` as I/O, keyboard rendering, `ApplicationBuilder`, handler registration and `run_polling`. The patterns `^category_`, `^product_` and `^confirm_` appear only as the handlers' `requires`. The outcome's text and keyboard stand for what is sent.
- The message filter `filters.TEXT & ~filters.COMMAND` is not modelled. `MessageHandler` takes any text.
- Logging setup and the hard-coded bot token: they are configuration, not behaviour.
- File system and CSV encoding: the file is abstracted to an existence flag and a list of rows. `os.path.isfile`, opening for append, `csv.writer` quoting and newline handling are not modelled, and neither is an I/O error in `save_order`.
- `datetime.now().isoformat()`: the creation time is an opaque string parameter of `ConfirmHandler`. `query.from_user.id` is an integer parameter.
- Strings.IsDigitString: ASCII digits only. Python's `isdigit` also accepts other Unicode digits such as superscripts, and the `\d` in `strptime`'s patterns accepts any Unicode decimal digit.
- Dates.FormatDate: years are always padded to four digits. Some older Python builds print years below 1000 without padding.
- Concurrency between updates, and between users: one session and one log are modelled, and each handler runs to completion.
- Telegram's 64-byte limit on callback data is not modelled.
- The `KeyError` outcomes stand for the exception the handler raises, which the library logs. What the user then sees is not modelled.
