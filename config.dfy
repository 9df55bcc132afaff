/**
 * Application settings (src-tauri/src/config.rs): the validated configuration, the four audio
 * presets, and the commands that edit the connection history, the preset, the server URL and
 * the display name. Every command takes a copy of the stored configuration, edits it and hands
 * it to `ConfigState::update`, which validates before storing and then saves. The TOML file,
 * its directory and the clock are outside the model: loading is given the file's fate, saving
 * is given its outcome, and `Utc::now` is a parameter.
 */
module Config {
  import opened Wrappers
  import opened Bytes
  import Text
  import Utf8

  const DEFAULT_BUFFER_SIZE: u32 := 64
  const MAX_HISTORY_ENTRIES: nat := 10
  const DEFAULT_PEER_NAME: string := "User"
  const MAX_PEER_NAME_BYTES: nat := 32

  /** A UTC time, as the clock reports it. */
  type Timestamp = nat

  /** `ConnectionHistoryEntry`. */
  datatype HistoryEntry = HistoryEntry(roomCode: string, connectedAt: Timestamp, userLabel: Option<string>)

  // ----- presets -----

  /** `AudioPreset`; `Balanced` is the default. */
  datatype AudioPreset = ZeroLatency | UltraLowLatency | Balanced | HighQuality

  /** `buffer_size`: the recommended audio buffer in samples. */
  function BufferSize(p: AudioPreset): (r: u32)
    ensures IsBufferSize(r)
  {
    match p
    case ZeroLatency => 32
    case UltraLowLatency => 64
    case Balanced => 128
    case HighQuality => 256
  }

  /** `jitter_buffer_frames`: the recommended jitter-buffer depth. */
  function JitterBufferFrames(p: AudioPreset): (r: u32)
    ensures r == 0 <==> p == ZeroLatency
    ensures r * 32 <= BufferSize(p)
  {
    match p
    case ZeroLatency => 0
    case UltraLowLatency => 1
    case Balanced => 4
    case HighQuality => 8
  }

  /** `name`: the kebab-case name the preset is stored under. */
  function Name(p: AudioPreset): (r: string)
    ensures r != [] && forall i :: 0 <= i < |r| ==> 'a' <= r[i] <= 'z' || r[i] == '-'
  {
    match p
    case ZeroLatency => "zero-latency"
    case UltraLowLatency => "ultra-low-latency"
    case Balanced => "balanced"
    case HighQuality => "high-quality"
  }

  /** `from_name`: the preset with exactly that name, if there is one. */
  function FromName(name: string): (r: Option<AudioPreset>)
    ensures forall p :: r == Some(p) <==> Name(p) == name
  {
    if name == "zero-latency" then Some(ZeroLatency)
    else if name == "ultra-low-latency" then Some(UltraLowLatency)
    else if name == "balanced" then Some(Balanced)
    else if name == "high-quality" then Some(HighQuality)
    else None
  }

  /** The name of a preset reads back as that preset. */
  lemma NameRoundTrip(p: AudioPreset)
    ensures FromName(Name(p)) == Some(p)
  {
  }

  /** `all`: the presets from lowest latency to highest quality. */
  const ALL_PRESETS: seq<AudioPreset> := [ZeroLatency, UltraLowLatency, Balanced, HighQuality]

  /**
   * Every preset is listed once, and along the list both the buffer and the jitter-buffer
   * depth grow, so each step trades latency for robustness.
   */
  lemma AllPresetsOrdered()
    ensures forall p :: p in ALL_PRESETS
    ensures forall i, j :: 0 <= i < j < |ALL_PRESETS| ==>
      BufferSize(ALL_PRESETS[i]) < BufferSize(ALL_PRESETS[j])
      && JitterBufferFrames(ALL_PRESETS[i]) < JitterBufferFrames(ALL_PRESETS[j])
  {
    forall p
      ensures p in ALL_PRESETS
    {
      match p
      case ZeroLatency => assert ALL_PRESETS[0] == p;
      case UltraLowLatency => assert ALL_PRESETS[1] == p;
      case Balanced => assert ALL_PRESETS[2] == p;
      case HighQuality => assert ALL_PRESETS[3] == p;
    }
  }

  /** `PresetInfo`: what the frontend is told about a preset. */
  datatype PresetInfo = PresetInfo(id: string, bufferSize: u32, jitterBufferFrames: u32)

  function Info(p: AudioPreset): (i: PresetInfo)
    ensures FromName(i.id) == Some(p)
  {
    PresetInfo(Name(p), BufferSize(p), JitterBufferFrames(p))
  }

  /** `config_list_presets`: one entry per preset, in the order of `all`. */
  function ListPresets(): (r: seq<PresetInfo>)
    ensures |r| == |ALL_PRESETS| && forall i :: 0 <= i < |r| ==> FromName(r[i].id) == Some(ALL_PRESETS[i])
  {
    seq(|ALL_PRESETS|, i requires 0 <= i < |ALL_PRESETS| => Info(ALL_PRESETS[i]))
  }

  // ----- the configuration and its validation -----

  /** `AppConfig`. */
  datatype AppConfig = AppConfig(
    inputDeviceId: Option<string>,
    outputDeviceId: Option<string>,
    bufferSize: u32,
    signalingServerUrl: Option<string>,
    preset: AudioPreset,
    connectionHistory: seq<HistoryEntry>,
    peerName: string)

  /** `AppConfig::default`. */
  const DEFAULT_CONFIG: AppConfig := AppConfig(None, None, DEFAULT_BUFFER_SIZE, None, Balanced, [], DEFAULT_PEER_NAME)

  predicate StartsWith(s: string, prefix: string)
  {
    |prefix| <= |s| && s[..|prefix|] == prefix
  }

  /** The buffer sizes the audio engine accepts. */
  predicate IsBufferSize(n: u32)
  {
    n == 32 || n == 64 || n == 128 || n == 256
  }

  /** A signalling URL must be a WebSocket one. */
  predicate IsSignalingUrl(url: string)
  {
    StartsWith(url, "ws://") || StartsWith(url, "wss://")
  }

  function BufferSizeMessage(n: u32): string
  {
    "Invalid buffer size: " + Text.Decimal(n) + ". Valid values are 32, 64, 128, 256"
  }

  function UrlMessage(url: string): string
  {
    "Invalid signaling server URL: " + url + ". Must start with ws:// or wss://"
  }

  /**
   * `AppConfig::validate`: accepts exactly a supported buffer size with, if a server URL is
   * set, a WebSocket one; the buffer size is checked first.
   */
  function Validate(c: AppConfig): (r: Result<Unit, string>)
    ensures r.Ok? <==> (IsBufferSize(c.bufferSize)
      && (c.signalingServerUrl.Some? ==> IsSignalingUrl(c.signalingServerUrl.value)))
    ensures !IsBufferSize(c.bufferSize) ==> r == Err(BufferSizeMessage(c.bufferSize))
    ensures IsBufferSize(c.bufferSize) && r.Err? ==> r == Err(UrlMessage(c.signalingServerUrl.value))
  {
    if c.bufferSize !in [32, 64, 128, 256] then Err(BufferSizeMessage(c.bufferSize))
    else if c.signalingServerUrl.Some? && !("ws://" <= c.signalingServerUrl.value)
      && !("wss://" <= c.signalingServerUrl.value)
    then Err(UrlMessage(c.signalingServerUrl.value))
    else Ok(Unit)
  }

  /** The default configuration is valid, and so are the three configurations of the tests. */
  lemma ValidateExamples()
    ensures Validate(DEFAULT_CONFIG).Ok?
    ensures Validate(DEFAULT_CONFIG.(inputDeviceId := Some("device1"), outputDeviceId := Some("device2"),
      signalingServerUrl := Some("wss://example.com"))).Ok?
    ensures Validate(DEFAULT_CONFIG.(bufferSize := 100)).Err?
    ensures Validate(DEFAULT_CONFIG.(signalingServerUrl := Some("http://example.com"))).Err?
  {
    var bad, good := "http://example.com", "wss://example.com";
    assert bad[0] == 'h' && "ws://"[0] == 'w' && "wss://"[0] == 'w';
    assert good[..6] == "wss://";
  }

  /** Only the buffer size and the server URL are validated. */
  lemma ValidateSeesOnlySizeAndUrl(c: AppConfig, d: AppConfig)
    requires c.bufferSize == d.bufferSize && c.signalingServerUrl == d.signalingServerUrl
    ensures Validate(c) == Validate(d)
  {
  }

  /** `config_set_preset`'s edit: the preset and its buffer size. */
  function WithPreset(c: AppConfig, p: AudioPreset): (r: AppConfig)
    ensures r.preset == p && r.bufferSize == BufferSize(p)
    ensures r.(preset := c.preset, bufferSize := c.bufferSize) == c
  {
    c.(preset := p, bufferSize := BufferSize(p))
  }

  /**
   * Every preset's buffer size is a valid one, so switching presets keeps a valid
   * configuration valid.
   */
  lemma PresetKeepsValid(c: AppConfig, p: AudioPreset)
    requires Validate(c).Ok?
    ensures IsBufferSize(BufferSize(p))
    ensures Validate(WithPreset(c, p)).Ok?
  {
  }

  // ----- loading and storing -----

  /** What `load_config` finds on disk. */
  datatype ConfigFile =
    | NoConfigDir
    | Absent
    | Unreadable(message: string)  // the whole "Failed to read config file at …" text
    | Stored(parsed: Result<AppConfig, string>)

  /** `load_config`: the parsed file, provided it validates. */
  function LoadConfig(file: ConfigFile): (r: Result<AppConfig, string>)
    ensures r.Ok? <==> file.Stored? && file.parsed.Ok? && Validate(file.parsed.value).Ok?
    ensures r.Ok? ==> r.value == file.parsed.value
    ensures file.Stored? && file.parsed.Ok? && r.Err? ==> r == Err(Validate(file.parsed.value).error)
  {
    match file
    case NoConfigDir => Err("Could not determine config path")
    case Absent => Err("Config file does not exist")
    case Unreadable(message) => Err(message)
    case Stored(parsed) =>
      if parsed.Err? then Err("Failed to parse config file: " + parsed.error)
      else
        var v := Validate(parsed.value);
        if v.Err? then Err(v.error) else Ok(parsed.value)
  }

  /** What `ConfigState::update` leaves stored, and what it returns. */
  datatype Committed = Committed(config: AppConfig, result: Result<Unit, string>)

  /**
   * `ConfigState::update`: an invalid configuration is refused and the stored one kept; a
   * valid one is stored and then saved, and the save's outcome is returned (a failed save still
   * leaves the new configuration stored).
   */
  function Commit(current: AppConfig, next: AppConfig, saved: Result<Unit, string>): (r: Committed)
    ensures Validate(next).Err? ==> r.config == current && r.result == Validate(next)
    ensures Validate(next).Ok? ==> r.config == next && r.result == saved
  {
    var v := Validate(next);
    if v.Err? then Committed(current, v) else Committed(next, saved)
  }

  /** Whatever is committed, what stays stored is valid when the stored one was. */
  lemma CommitKeepsValid(current: AppConfig, next: AppConfig, saved: Result<Unit, string>)
    requires Validate(current).Ok?
    ensures Validate(Commit(current, next, saved).config).Ok?
  {
  }

  /** An edit that touches neither the buffer size nor the URL always passes validation on a valid configuration. */
  lemma CommitOfValidEdit(current: AppConfig, next: AppConfig, saved: Result<Unit, string>)
    requires Validate(current).Ok?
    requires next.bufferSize == current.bufferSize && next.signalingServerUrl == current.signalingServerUrl
    ensures Commit(current, next, saved) == Committed(next, saved)
  {
    ValidateSeesOnlySizeAndUrl(current, next);
  }

  // ----- the connection history -----

  /** `retain(|e| e.room_code != code)`: the entries with another room code, in their order. */
  function Retain(h: seq<HistoryEntry>, code: string): (r: seq<HistoryEntry>)
    ensures |r| <= |h|
    ensures forall e :: e in r <==> e in h && e.roomCode != code
  {
    if h == [] then []
    else if h[0].roomCode != code then [h[0]] + Retain(h[1..], code)
    else Retain(h[1..], code)
  }

  /** Retaining distributes over concatenation, which is to say it keeps the kept entries' order. */
  lemma {:induction false} RetainAppend(h: seq<HistoryEntry>, g: seq<HistoryEntry>, code: string)
    ensures Retain(h + g, code) == Retain(h, code) + Retain(g, code)
  {
    if h == [] {
      assert h + g == g;
    } else {
      assert (h + g)[0] == h[0];
      assert (h + g)[1..] == h[1..] + g;
      RetainAppend(h[1..], g, code);
    }
  }

  /** A list without the code is left as it is. */
  lemma {:induction false} RetainAbsent(h: seq<HistoryEntry>, code: string)
    requires forall i :: 0 <= i < |h| ==> h[i].roomCode != code
    ensures Retain(h, code) == h
  {
    if h != [] {
      RetainAbsent(h[1..], code);
    }
  }

  /** No two entries share a room code. */
  predicate UniqueCodes(h: seq<HistoryEntry>)
  {
    forall i, j :: 0 <= i < j < |h| ==> h[i].roomCode != h[j].roomCode
  }

  lemma {:induction false} RetainUnique(h: seq<HistoryEntry>, code: string)
    requires UniqueCodes(h)
    ensures UniqueCodes(Retain(h, code))
  {
    if h != [] {
      RetainUnique(h[1..], code);
      var rest := Retain(h[1..], code);
      if h[0].roomCode != code {
        var r := [h[0]] + rest;
        forall i, j | 0 <= i < j < |r|
          ensures r[i].roomCode != r[j].roomCode
        {
          if i == 0 {
            assert r[j] in rest;
            var k :| 0 <= k < |h[1..]| && h[1..][k] == r[j];
            assert h[k + 1] == r[j];
          } else {
            assert r[i] == rest[i - 1] && r[j] == rest[j - 1];
          }
        }
      }
    }
  }

  /** `truncate(n)`. */
  function Truncate(h: seq<HistoryEntry>, n: nat): (r: seq<HistoryEntry>)
    ensures |r| == if |h| <= n then |h| else n
    ensures r == h[..|r|]
  {
    if |h| <= n then h else h[..n]
  }

  /**
   * `config_add_connection_history`'s edit: the entry goes first, older entries with its code
   * go, and the list is cut to ten.
   */
  function AddToHistory(h: seq<HistoryEntry>, e: HistoryEntry): (r: seq<HistoryEntry>)
    ensures 1 <= |r| <= MAX_HISTORY_ENTRIES && r[0] == e
    ensures forall x :: x in r ==> x == e || (x in h && x.roomCode != e.roomCode)
  {
    Truncate([e] + Retain(h, e.roomCode), MAX_HISTORY_ENTRIES)
  }

  /**
   * After adding, the new entry is first and the only one with its code, the list holds at
   * most ten entries, and the rest are the other entries in their old order, as many as fit.
   */
  lemma AddToHistoryShape(h: seq<HistoryEntry>, e: HistoryEntry)
    ensures var r := AddToHistory(h, e);
      1 <= |r| <= MAX_HISTORY_ENTRIES && r[0] == e
      && (forall i :: 1 <= i < |r| ==> r[i].roomCode != e.roomCode)
      && r[1..] == Retain(h, e.roomCode)[..|r| - 1]
      && |r| == if 1 + |Retain(h, e.roomCode)| <= MAX_HISTORY_ENTRIES then 1 + |Retain(h, e.roomCode)| else MAX_HISTORY_ENTRIES
  {
    var rest := Retain(h, e.roomCode);
    var r := AddToHistory(h, e);
    forall i | 1 <= i < |r|
      ensures r[i].roomCode != e.roomCode
    {
      assert r[i] == rest[i - 1];
      assert rest[i - 1] in rest;
    }
    assert r[1..] == rest[..|r| - 1];
  }

  /** Adding keeps room codes unique. */
  lemma AddToHistoryUnique(h: seq<HistoryEntry>, e: HistoryEntry)
    requires UniqueCodes(h)
    ensures UniqueCodes(AddToHistory(h, e))
  {
    var rest := Retain(h, e.roomCode);
    RetainUnique(h, e.roomCode);
    var full := [e] + rest;
    forall i, j | 0 <= i < j < |full|
      ensures full[i].roomCode != full[j].roomCode
    {
      if i == 0 {
        assert full[j] == rest[j - 1] && rest[j - 1] in rest;
      } else {
        assert full[i] == rest[i - 1] && full[j] == rest[j - 1];
      }
    }
  }

  /** Only an entry with the room code comes first after adding it, so adding twice is adding once. */
  lemma AddToHistoryAgain(h: seq<HistoryEntry>, e: HistoryEntry)
    ensures AddToHistory(AddToHistory(h, e), e) == AddToHistory(h, e)
  {
    var r := AddToHistory(h, e);
    AddToHistoryShape(h, e);
    var rest := Retain(h, e.roomCode);
    assert r == [r[0]] + r[1..];
    RetainAbsent(r[1..], e.roomCode);
    assert Retain(r, e.roomCode) == r[1..];
  }

  /** The first index whose entry has the room code (`iter_mut().find`). */
  function FirstWithCode(h: seq<HistoryEntry>, code: string): (r: Option<nat>)
    ensures r.None? <==> forall i :: 0 <= i < |h| ==> h[i].roomCode != code
    ensures r.Some? ==> (r.value < |h| && h[r.value].roomCode == code
      && forall i :: 0 <= i < r.value ==> h[i].roomCode != code)
  {
    if h == [] then None
    else if h[0].roomCode == code then Some(0)
    else
      var rest := FirstWithCode(h[1..], code);
      if rest.None? then None else Some(rest.value + 1)
  }

  /**
   * `config_update_connection_history_label`'s edit: the first entry with the code gets the
   * new label; None when no entry has it.
   */
  function Relabel(h: seq<HistoryEntry>, code: string, userLabel: Option<string>): (r: Option<seq<HistoryEntry>>)
    ensures r.None? <==> forall i :: 0 <= i < |h| ==> h[i].roomCode != code
    ensures r.Some? ==> |r.value| == |h| && exists i :: RelabelledAt(h, r.value, code, i, userLabel)
  {
    var i := FirstWithCode(h, code);
    if i.None? then None
    else
      var r := h[i.value := h[i.value].(userLabel := userLabel)];
      assert RelabelledAt(h, r, code, i.value, userLabel);
      Some(r)
  }

  /**
   * `r` is `h` with only the label of entry `i` set, where `i` is the first entry with room
   * code `code`.
   */
  predicate RelabelledAt(h: seq<HistoryEntry>, r: seq<HistoryEntry>, code: string, i: nat, userLabel: Option<string>)
  {
    |r| == |h| && i < |h| && h[i].roomCode == code
    && (forall k :: 0 <= k < i ==> h[k].roomCode != code)
    && r[i] == HistoryEntry(h[i].roomCode, h[i].connectedAt, userLabel)
    && forall k :: 0 <= k < |h| && k != i ==> r[k] == h[k]
  }

  // ----- the display name -----

  /**
   * `config_set_peer_name`'s check: the trimmed name, refused when empty or longer than 32
   * bytes of UTF-8 (the message says characters; the length is Rust's byte length).
   */
  function CheckPeerName(name: string): (r: Result<string, string>)
    ensures r.Ok? <==> Text.Trim(name) != [] && Utf8.Len(Text.Trim(name)) <= MAX_PEER_NAME_BYTES
    ensures r.Ok? ==> r.value == Text.Trim(name)
    ensures Text.Trim(name) == [] ==> r == Err("Peer name cannot be empty")
  {
    var trimmed := Text.Trim(name);
    if trimmed == [] then Err("Peer name cannot be empty")
    else if Utf8.Len(trimmed) > MAX_PEER_NAME_BYTES then Err("Peer name cannot exceed 32 characters")
    else Ok(trimmed)
  }

  /** An accepted name is accepted again as it is. */
  lemma PeerNameStable(name: string)
    requires CheckPeerName(name).Ok?
    ensures CheckPeerName(CheckPeerName(name).value) == CheckPeerName(name)
  {
    Text.TrimIdempotent(name);
  }

  /** The limit is on bytes: seventeen 'é' are seventeen characters but 34 bytes, and are refused. */
  lemma PeerNameCountsBytes()
    ensures CheckPeerName(seq(17, _ => 'é')).Err?
  {
    var s := seq(17, _ => 'é');
    assert Text.LeadingWhiteSpace(s) == 0;
    assert Text.TrailingWhiteSpace(s) == 0;
    assert Text.Trim(s) == s;
    ByteLenOfRepeat(17, 'é');
  }

  lemma {:induction false} ByteLenOfRepeat(n: nat, c: char)
    ensures Utf8.Len(seq(n, _ => c)) == n * Utf8.CharLen(c)
  {
    if n > 0 {
      var s := seq(n, _ => c);
      assert s[1..] == seq(n - 1, _ => c);
      ByteLenOfRepeat(n - 1, c);
    }
  }

  // ----- the stored configuration and the commands -----

  /** `ConfigState`: the configuration behind the mutex. */
  class ConfigState {
    var config: AppConfig

    predicate Valid()
      reads this
    {
      Validate(config).Ok?
    }

    /** `ConfigState::new`: what loads, or the default when loading fails. */
    constructor (file: ConfigFile)
      ensures Valid()
      ensures config == if LoadConfig(file).Ok? then LoadConfig(file).value else DEFAULT_CONFIG
    {
      var loaded := LoadConfig(file);
      if loaded.Ok? {
        config := loaded.value;
      } else {
        config := DEFAULT_CONFIG;
        ValidateExamples();
      }
    }

    /** `update` (and `config_save`), with `saved` the outcome of writing the file. */
    method Update(next: AppConfig, saved: Result<Unit, string>) returns (r: Result<Unit, string>)
      modifies this
      ensures Committed(config, r) == Commit(old(config), next, saved)
      ensures old(Valid()) ==> Valid()
    {
      var v := Validate(next);
      if v.Err? {
        return v;
      }
      config := next;
      r := saved;
    }

    /** `config_set_server_url`. */
    method SetServerUrl(url: Option<string>, saved: Result<Unit, string>) returns (r: Result<Unit, string>)
      modifies this
      ensures Committed(config, r) == Commit(old(config), old(config).(signalingServerUrl := url), saved)
      ensures old(Valid()) ==> Valid()
    {
      r := Update(config.(signalingServerUrl := url), saved);
    }

    /** `config_set_preset`: an unknown name is refused; otherwise the preset and its buffer size are committed. */
    method SetPreset(name: string, saved: Result<Unit, string>) returns (r: Result<PresetInfo, string>)
      modifies this
      ensures FromName(name).None? ==> r == Err("Unknown preset: " + name) && config == old(config)
      ensures FromName(name).Some? ==>
        var c := Commit(old(config), WithPreset(old(config), FromName(name).value), saved);
        config == c.config && r == if c.result.Ok? then Ok(Info(FromName(name).value)) else Err(c.result.error)
      ensures old(Valid()) ==> Valid()
    {
      var preset := FromName(name);
      if preset.None? {
        return Err("Unknown preset: " + name);
      }
      var u := Update(WithPreset(config, preset.value), saved);
      if u.Err? {
        return Err(u.error);
      }
      r := Ok(Info(preset.value));
    }

    /** `config_add_connection_history`, with `now` the clock's reading. */
    method AddConnectionHistory(code: string, userLabel: Option<string>, now: Timestamp, saved: Result<Unit, string>)
      returns (r: Result<Unit, string>)
      modifies this
      ensures Committed(config, r) == Commit(old(config),
        old(config).(connectionHistory := AddToHistory(old(config).connectionHistory, HistoryEntry(code, now, userLabel))), saved)
      ensures old(Valid()) ==> Valid()
    {
      r := Update(config.(connectionHistory := AddToHistory(config.connectionHistory, HistoryEntry(code, now, userLabel))), saved);
    }

    /** `config_remove_connection_history`. */
    method RemoveConnectionHistory(code: string, saved: Result<Unit, string>) returns (r: Result<Unit, string>)
      modifies this
      ensures Committed(config, r) == Commit(old(config),
        old(config).(connectionHistory := Retain(old(config).connectionHistory, code)), saved)
      ensures old(Valid()) ==> Valid()
    {
      r := Update(config.(connectionHistory := Retain(config.connectionHistory, code)), saved);
    }

    /** `config_clear_connection_history`. */
    method ClearConnectionHistory(saved: Result<Unit, string>) returns (r: Result<Unit, string>)
      modifies this
      ensures Committed(config, r) == Commit(old(config), old(config).(connectionHistory := []), saved)
      ensures old(Valid()) ==> Valid()
    {
      r := Update(config.(connectionHistory := []), saved);
    }

    /** `config_update_connection_history_label`: refused when no entry has the code. */
    method UpdateConnectionHistoryLabel(code: string, userLabel: Option<string>, saved: Result<Unit, string>)
      returns (r: Result<Unit, string>)
      modifies this
      ensures var h := Relabel(old(config).connectionHistory, code, userLabel);
        if h.None? then r == Err("Room code not found in history: " + code) && config == old(config)
        else Committed(config, r) == Commit(old(config), old(config).(connectionHistory := h.value), saved)
      ensures old(Valid()) ==> Valid()
    {
      var h := Relabel(config.connectionHistory, code, userLabel);
      if h.None? {
        return Err("Room code not found in history: " + code);
      }
      r := Update(config.(connectionHistory := h.value), saved);
    }

    /** `config_set_peer_name`: a refused name changes nothing; an accepted one is committed trimmed. */
    method SetPeerName(name: string, saved: Result<Unit, string>) returns (r: Result<Unit, string>)
      modifies this
      ensures var n := CheckPeerName(name);
        if n.Err? then r == Err(n.error) && config == old(config)
        else Committed(config, r) == Commit(old(config), old(config).(peerName := n.value), saved)
      ensures old(Valid()) ==> Valid()
    {
      var n := CheckPeerName(name);
      if n.Err? {
        return Err(n.error);
      }
      r := Update(config.(peerName := n.value), saved);
    }
  }

  /**
   * On a valid configuration the history, label and name commands never fail validation:
   * each commit stores the edit and returns the save's outcome.
   */
  lemma HistoryEditsAlwaysCommit(c: AppConfig, h: seq<HistoryEntry>, name: string, saved: Result<Unit, string>)
    requires Validate(c).Ok?
    ensures Commit(c, c.(connectionHistory := h), saved) == Committed(c.(connectionHistory := h), saved)
    ensures Commit(c, c.(peerName := name), saved) == Committed(c.(peerName := name), saved)
  {
    CommitOfValidEdit(c, c.(connectionHistory := h), saved);
    CommitOfValidEdit(c, c.(peerName := name), saved);
  }
}
