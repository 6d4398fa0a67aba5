# Othello over a message bus: a verified model

This project models the logic of a two-player Othello system written in
Python, in which an arbiter process and player clients talk over an MQTT
publish/subscribe bus. It covers:

- the board value, its opening position and its text codec (`board.py`);
- the message topic `othello/<sender>/<receiver>/<tag>`, the inbound
  accept/drop filter and the mailbox of the channel (`netcode.py`), and of
  its earlier iteration, the connection (`connection.py`);
- the arbiter's pairing loop, which waits for two clients (`server.py`);
- the debounced push button and the rotary encoder built from two buttons
  (`input_reader.py`);
- the two topic parsers (`message.py`, `util.py`).

Each source file is one module: `Boards`, `Netcode`, `Connections`,
`Server`, `InputReader`, `Messages` (which also holds the `Message`
dataclass that `netcode.py` declares with the same four fields) and `Util`.
`Builtins` models the Python built-ins the code relies on (`str.split`,
`str.join`, `deque.remove`), and `Wrappers` holds `Option` and `Result`.

Where the Python code mutates an object, the model is a class whose methods
modify its fields:

- `Board` has its cells as a sequence of rows.
- `Channel` and `Connection` have their mailbox and the sequence of
  messages handed to the bus.
- `Button` and `Encoder` have their state fields and edge flags.

Each such method is proved against a pure function (`Decode`, `Deliver`,
`FirstMatch`, `Clients`, `Step`, `TurnOf`), and the properties are proved
about those functions. Python exceptions become `Result` or `Delivery`
values that name the exception. A receive that would spin until a message
arrives is one scan that returns `None` when the Python code would keep
waiting. The GPIO reading and the monotonic clock are parameters.

`Board.deserialize` (board.py:62-69) does not yet handle bad input (its
own comment at board.py:64 says so). The model keeps its behaviour as it is:

- A malformed board text raises `ValueError` (a character that is not a
  tile) or `IndexError` (a row or column past the eighth). `Decode` returns
  the exception it would raise, with the row and column reached.
- A tile-only text shorter than the full board is accepted. The cells it
  does not reach keep their opening tiles (`ShortTextKeepsOpening`).
- Empty rows past the eighth, for example from a trailing `|` or from `||`
  after eight full rows, are accepted, because they write no cell.

## Model

| member | source | states |
|---|---|---|
| `Boards.Tile.Char` | board.py:15-18 | `Tile.value`: each tile has its own character (`.`, `B`, `W`), none of them `\|` |
| `Boards.TileOf` | board.py:15-18 | `Tile(c)` succeeds exactly for `.`, `B`, `W`, and the tile it gives has `c` as its value |
| `Boards.TileEncoding` | board.py:15-18 | the three tiles have distinct characters, none of them `\|`, and each character decodes back to its tile |
| `Boards.Opening` | board.py:31-36 | the opening board is 8×8, White at (3,3) and (4,4), Black at (3,4) and (4,3), every other cell empty |
| `Boards.Encode` | board.py:59-60 | the serialized text has 71 characters; index 9r+c holds the character of cell (r,c), and every ninth character is `\|` |
| `Boards.ApplyRow` | board.py:67-68 | writing one row succeeds exactly when every character is a tile on the board, and then overwrites exactly those cells; otherwise it fails at the first bad character, with the exception Python raises there |
| `Boards.ApplyRows` | board.py:66-68 | the same for all rows from a given row on: it succeeds iff every row fits, else it fails at the first bad character in reading order |
| `Boards.Decode` | board.py:62-69 | deserialize succeeds iff every character of every row is a tile character within the 8×8 board; then the board is the opening board overwritten with those cells; else the error names the first offending position and its exception kind |
| `Boards.DecodeEncode` | board.py:59-69 | deserializing a serialized board gives the same cells |
| `Boards.EncodeDecode` | board.py:59-69 | a text of eight rows of eight that deserializes is the serialization of the board it gives |
| `Boards.ShortTextKeepsOpening` | board.py:65-68 | a short tile-only text succeeds, and every cell it does not reach keeps its opening tile |
| `Boards.Board.constructor` | board.py:31-36 | a new board holds the opening position |
| `Boards.Board.Serialize` | board.py:59-60 | the serialized text is `Encode` of the cells: 71 characters, cell (r,c) at index 9r+c and `\|` at every ninth position, and it deserializes back to the board's cells |
| `Boards.Board.Deserialize` | board.py:62-69 | the cell-by-cell overwrite of a fresh board succeeds exactly when `Decode` does, with the same cells or the same error |
| `Boards.Board.Winner` | board.py:71-73 | the winner is always EMPTY |
| `Builtins.Split` | message.py:14 | `str.split` gives one more piece than separators, and no piece holds the separator |
| `Builtins.Join` | board.py:60 | `str.join` puts one separator between each two pieces, so separator-free pieces give exactly one separator fewer than pieces |
| `Builtins.SplitJoin` | netcode.py:22 | splitting a join of separator-free pieces gives the pieces back |
| `Builtins.JoinSplit` | board.py:66 | joining the pieces of a split gives the text back |
| `Builtins.RemoveFirst` | netcode.py:90 | `deque.remove(x)` drops the first element equal to `x` and keeps the rest in order |
| `Messages.Message.Topic` | netcode.py:20-22 | the topic is exactly `othello/` + sender + `/` + receiver + `/` + tag |
| `Messages.TopicFields` | netcode.py:61 | splitting the topic of a message whose fields hold no `/` gives the scope and the three fields back, in order |
| `Messages.FourFields` | message.py:14 | a topic that splits into four fields is those fields joined by `/` |
| `Messages.ScopeDecidesTopic` | message.py:14-17 | for a four-field topic, the parsed message has that very topic iff the first field is `othello` |
| `Messages.Parse` | message.py:11-19 | parse succeeds iff the topic has exactly three `/`; then the topic is `<scope>/<sender>/<receiver>/<tag>` with fields 2, 3 and 4 as sender, receiver and tag, none holding `/`, the content is the payload, and the warning is raised iff that scope is not `othello` (a foreign scope still gives a message) |
| `Messages.ParseTopic` | message.py:11-19 | parsing the topic and content of a message gives the message back, with no warning |
| `Util.ParseMessage` | util.py:1-7 | succeeds iff the topic has exactly three `/`, whatever the scope; then the topic is `<scope>/<sender>/<receiver>/<tag>` and it returns field 2, field 4 and the payload unchanged, dropping the receiver |
| `Util.ParseMessageAgrees` | util.py:1-7 | it fails on the same topics as `Message.parse`, and otherwise returns that message's sender, tag and content, dropping the receiver |
| `Util.ParseMessageOfTopic` | util.py:1-7 | on a message's topic it returns the sender, tag and content, whatever the receiver |
| `Netcode.Vetoes` | netcode.py:104-105 | `_is_message_invalid`: the server channel vetoes nothing (the base class at netcode.py:57-58); a client channel vetoes exactly the senders other than `server` |
| `Netcode.Deliver` | netcode.py:60-79 | a topic without exactly four fields raises; a message that survives the filter has exactly the received topic and payload, another sender, is addressed to the channel or to `*`, and is kept iff the role does not veto it |
| `Netcode.AcceptedIff` | netcode.py:60-79 | a message is accepted iff it comes from another participant, is addressed to the channel or broadcast, and (for a client) comes from `server` |
| `Netcode.OwnBroadcastDropped` | netcode.py:64-65 | the channel's own broadcast echoed back is dropped silently |
| `Netcode.ForeignScopeDropped` | netcode.py:67-69 | a four-field topic outside the `othello` scope is dropped as an invalid topic |
| `Netcode.ServerBroadcast` | netcode.py:118-119 | a server broadcast is accepted by every client and dropped by the server itself |
| `Netcode.FirstMatch` | netcode.py:88-89 | the index found is the first one whose message satisfies the condition; none means no message does |
| `Netcode.Channel.Client` | netcode.py:29-33 | a new client channel has its uid, an empty mailbox and nothing published |
| `Netcode.Channel.Server` | netcode.py:111-113 | the server channel is named `server` and starts empty |
| `Netcode.Channel.OnMessage` | netcode.py:60-79 | an accepted message is appended at the end of the mailbox; otherwise nothing changes |
| `Netcode.Channel.SendMessage` | netcode.py:81-84 | publishes the message from the own uid on its topic, with `''` for no content |
| `Netcode.Channel.SendToServer` | netcode.py:107-108 | publishes to `server` |
| `Netcode.Channel.SendToClient` | netcode.py:115-116 | publishes to the given client |
| `Netcode.Channel.Broadcast` | netcode.py:118-119 | publishes to `*` |
| `Netcode.Channel.ReceiveMatching` | netcode.py:86-91 | returns the first mailbox message satisfying the condition and removes exactly that one, the rest keeping their order |
| `Netcode.Channel.ReceiveAny` | netcode.py:93-94 | returns and removes the head of the mailbox |
| `Connections.Rejects` | connection.py:78-90 | `_is_message_invalid`: a client connection rejects senders other than `server`, the server connection rejects `server`; the client rule is the same as the channel's |
| `Connections.Deliver` | connection.py:41-57 | a topic without exactly four fields raises; a surviving message has the received topic and payload and is addressed to the connection by name; it is kept iff the role does not reject its sender |
| `Connections.AcceptedIff` | connection.py:41-57 | a message is accepted iff it is addressed to the connection by name and the role does not reject the sender (`ClientConnection`: not `server`; `ServerConnection`: `server`) |
| `Connections.BroadcastDropped` | connection.py:45-47 | a broadcast is dropped as an invalid topic |
| `Connections.AgreesWithChannel` | connection.py:41-57 | for a message sent to it by name, a connection accepts exactly what the later channel accepts |
| `Connections.Connection.Client` | connection.py:10-15 | a new client connection has its uid, an empty queue and nothing published |
| `Connections.Connection.Server` | connection.py:85-87 | the server connection is named `server` and starts empty |
| `Connections.Connection.OnMessage` | connection.py:41-57 | an accepted message is appended at the end of the queue; otherwise nothing changes |
| `Connections.Connection.SendMessage` | connection.py:59-62 | publishes on `othello/<uid>/<receiver>/<tag>` with the content as given |
| `Connections.Connection.SendToServer` | connection.py:81-82 | publishes to `server` |
| `Connections.Connection.ReceiveMessage` | connection.py:64-68 | returns and removes the oldest message (first in, first out) |
| `Server.Track` | server.py:10-14 | only the sender's membership can change: `connected` adds it, `disconnected` removes it (absent or not), any other tag leaves the set alone; the set grows by at most one |
| `Server.Clients` | server.py:6-14 | the set built by a run of messages has at most one name per message |
| `Server.ClientsMembership` | server.py:8-14 | a name is in the set iff it sent `connected` and no `disconnected` since |
| `Server.WaitForClients` | server.py:4-14 | the loop consumes a prefix of the queue, holds the set that prefix builds, stops at the first prefix that yields two clients, and then holds two distinct names |
| `InputReader.Step` | input_reader.py:23-45 | the reading is remembered; a changed reading restarts the debouncing period and leaves the debounced level; the debounced level follows the reading only after 100 000 ns without a change; pressed iff it fell to LOW, released iff it rose to HIGH, never both |
| `InputReader.ChatteringIgnored` | input_reader.py:34-43 | while the reading changes on every update, the debounced level never changes |
| `InputReader.Button.constructor` | input_reader.py:12-21 | the button starts at the pin's level with no edge |
| `InputReader.Button.Update` | input_reader.py:23-45 | the new state is `Step` of the old one, flags cleared first; an edge is reported iff the pressed state flipped, a press iff it became pressed |
| `InputReader.Button.IsPressed` | input_reader.py:47-49 | pressed iff the debounced level is LOW |
| `InputReader.Button.IsReleased` | input_reader.py:51-53 | released iff not pressed, that is iff the debounced level is HIGH |
| `InputReader.Button.WasJustOnEdge` | input_reader.py:63-65 | true iff either edge flag is raised |
| `InputReader.TurnOf` | input_reader.py:91-95 | a turn is reported only on a press of the first button, left iff the second is pressed, never both |
| `InputReader.Encoder.constructor` | input_reader.py:73-78 | two fresh, distinct buttons and no turn |
| `InputReader.Encoder.Update` | input_reader.py:80-95 | both buttons step, and the turn flags are `TurnOf` of their new states |

## Left out

- PIL rendering (`Tile.image`, `Board.to_image` and the image files). This is
  image composition by a foreign library.
- Move validation, `place`, scoring and real win detection. The board module
  does not define them, although its test file calls them.
- The MQTT client lifecycle: `__enter__`/`__exit__`, `connect`, `subscribe`,
  `loop_start`/`loop_stop`, and the `connected`/`disconnected` messages sent
  by `_on_connect`/`_on_disconnect`. `publish` is modelled only as appending
  a (topic, payload) pair to `published`.
- UTF-8 payload decoding and `print` logging. Payloads are strings.
  Warnings are kept only as results: the `unknownScope` flag of
  `Messages.Parse` (message.py:15-16), and the `InvalidTopic` and
  `InvalidMessage` deliveries of `Netcode.Deliver` (netcode.py:68, 74) and
  `Connections.Deliver` (connection.py:46, 52), as against the silent
  `OwnBroadcast`. Informational and debug prints leave no trace.
- Util.ParseMessage: the unknown-scope warning of util.py:4-5 is not part of
  the result, because the function returns the source's three-name tuple;
  its contract still exposes the scope field through the topic's shape.
- The callback thread running beside the consumer. Each delivery and each
  receive is one atomic step.
- client.py, config.py, display.py and rfid_reader.py. These are hardware
  drivers and a client stub outside the modelled core.
- The `connection.broadcast("game-started")` call at server.py:16.
  `ServerConnection` defines no `broadcast`, so there is nothing to model.
- Netcode.Channel.ReceiveMatching: one scan of the mailbox, returning `None`
  where the source would spin until a matching message arrives.
- Connections.Connection.ReceiveMessage: returns `None` on an empty queue,
  where the source would spin until a message arrives.
- Server.WaitForClients: stops with fewer than two clients when the queue
  runs dry, where the source would keep waiting for messages.
- InputReader.Button.Update: the pin is not read inside the method. Its
  reading and the clock value are parameters, with LOW and HIGH as a
  two-valued type.
