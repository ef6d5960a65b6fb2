/**
 * The request queue behind the bot's `messageCreate` handler in index.js:
 * the access gate, the tokeniser, the four `queue-*` commands, the save
 * after each mutation, and the load at startup.
 */
module QueueBot {
  import opened Wrappers
  import opened Strings
  import opened Numbers

  const Prefix: string := "."
  const AddCommand: string := "queue-add"
  const ViewCommand: string := "queue-view"
  const RemoveCommand: string := "queue-remove"
  const ClearCommand: string := "queue-clear"

  /** A platform user as the bot sees one: its id and its display tag. */
  datatype UserRef = UserRef(id: string, tag: string)

  /** One request; `user` is None when `mentions.users.first()` was undefined. */
  datatype Entry = Entry(user: Option<UserRef>, product: string)

  /** The parts of an incoming message the handler reads. */
  datatype Message = Message(authorId: string, authorIsBot: bool, content: string, mentions: seq<UserRef>)

  /** What the backing file holds: nothing, something unparseable, or a saved list. */
  datatype FileState = Absent | Corrupt | Saved(entries: seq<Entry>)

  /** One name/value pair of the listing embed. */
  datatype Field = Field(name: string, value: string)

  datatype Reply =
    | NotAuthorized        // 'You are not authorized to use this bot.'
    | Added(product: string)
    | QueueEmpty           // 'The queue is empty.'
    | Listing(fields: seq<Field>)
    | InvalidIndex         // 'Invalid index. Please provide a valid index from the queue.'
    | Removed(tag: string)
    | AlreadyEmpty         // 'The queue is already empty.'
    | Cleared              // 'The queue has been cleared.'

  /** How handling one message ends: no reply, a reply, or a thrown TypeError. */
  datatype Outcome = Silent | Replied(reply: Reply) | Threw

  /** The command word and its arguments. */
  datatype Tokens = Tokens(command: string, args: seq<string>)

  /**
   * Drop the prefix, trim, split on runs of spaces, lowercase the first
   * word. The command is one word without capitals, and the command and
   * arguments rejoined with single spaces are the trimmed text after the
   * prefix with its runs of spaces shortened: equal up to case, and equal
   * character for character after the command, so the arguments keep
   * their case.
   */
  function Tokenise(content: string): (t: Tokens)
    ensures forall i :: 0 <= i < |t.command| ==> t.command[i] != ' ' && !IsUpper(t.command[i])
    ensures EqualIgnoringCase(Join([t.command] + t.args), CollapseSpaces(Trim(Slice(content, |Prefix|))))
    ensures var text := CollapseSpaces(Trim(Slice(content, |Prefix|)));
      var line := Join([t.command] + t.args);
      |t.command| <= |text| && line[|t.command|..] == text[|t.command|..]
  {
    var words := Split(Trim(Slice(content, |Prefix|)));
    var command := ToLower(words[0]);
    assert words[0] in words;
    assert forall i :: 0 <= i < |command| ==> command[i] != ' ' by {
      forall i | 0 <= i < |command| ensures command[i] != ' ' {
        assert SameLetter(words[0][i], command[i]);
      }
    }
    JoinSplitCollapses(Trim(Slice(content, |Prefix|)));
    RejoinFirstWord(command, words);
    Tokens(command, words[1..])
  }

  /** Rejoining after the first word is replaced by one equal to it up to case. */
  lemma {:induction false} RejoinFirstWord(a: string, words: seq<string>)
    requires |words| >= 1 && EqualIgnoringCase(a, words[0])
    ensures EqualIgnoringCase(Join([a] + words[1..]), Join(words))
    ensures |a| <= |Join(words)| && Join([a] + words[1..])[|a|..] == Join(words)[|a|..]
  {
    assert words == [words[0]] + words[1..];
    RejoinUpToCase(a, words[0], words[1..]);
  }

  /** Replacing the first word by one equal up to case keeps the join equal up to case. */
  lemma {:induction false} RejoinUpToCase(a: string, b: string, rest: seq<string>)
    requires EqualIgnoringCase(a, b)
    ensures EqualIgnoringCase(Join([a] + rest), Join([b] + rest))
    ensures Join([a] + rest)[|a|..] == Join([b] + rest)[|b|..]
  {
    if rest == [] {
      assert Join([a]) == a && Join([b]) == b;
    } else {
      assert ([a] + rest)[1..] == rest && ([b] + rest)[1..] == rest;
      var j := Join(rest);
      assert (a + " " + j)[|a|..] == " " + j == (b + " " + j)[|b|..];
      forall i | 0 <= i < |a + " " + j| ensures SameLetter((a + " " + j)[i], (b + " " + j)[i]) {
        if i < |a| {
          assert (a + " " + j)[i] == a[i] && (b + " " + j)[i] == b[i];
        }
      }
    }
  }

  /** `args[0]`, undefined when there is no argument. */
  function FirstArg(args: seq<string>): (r: Option<string>)
    ensures r.None? <==> args == []
    ensures r.Some? ==> r.value == args[0]
  {
    if |args| > 0 then Some(args[0]) else None
  }

  /** `message.mentions.users.first()`: undefined exactly when nobody is mentioned. */
  function FirstMention(m: Message): (r: Option<UserRef>)
    ensures r.None? <==> m.mentions == []
    ensures r.Some? ==> r.value == m.mentions[0]
  {
    if |m.mentions| > 0 then Some(m.mentions[0]) else None
  }

  /**
   * The name of the k-th (0-based) field of the listing, `${index + 1}.`:
   * the decimal digits of k+1, without a leading zero, then a dot.
   */
  function Label(k: nat): (r: string)
    ensures |r| >= 2 && r[|r| - 1] == '.'
    ensures forall i :: 0 <= i < |r| - 1 ==> IsDecimalDigit(r[i])
    ensures r[0] != '0' && DigitsValue(r[..|r| - 1], 10) == k + 1
  {
    var d := DecimalString(k + 1);
    assert (d + ".")[..|d|] == d;
    d + "."
  }

  /** The queue the program starts with: the saved list, or empty when the file is missing or unreadable. */
  function Restored(file: FileState): (q: seq<Entry>)
    ensures file.Saved? ==> q == file.entries
    ensures !file.Saved? ==> q == []
  {
    if file.Saved? then file.entries else []
  }

  /** Every argument is a non-empty, space-free word. */
  lemma {:induction false} TokeniseArgsAreWords(content: string)
    ensures forall k :: 0 <= k < |Tokenise(content).args| ==>
      Tokenise(content).args[k] != [] && NoSpace(Tokenise(content).args[k])
  {
    var s := Trim(Slice(content, |Prefix|));
    var words := Split(s);
    if s != [] {
      assert !IsWhitespace(s[0]) && !IsWhitespace(s[|s| - 1]);
      SplitUnpadded(s);
    } else {
      assert NextSpace(s, 0) == 0;
    }
    forall k | 0 <= k < |words| - 1 ensures words[1..][k] != [] && NoSpace(words[1..][k]) {
      assert words[1..][k] == words[k + 1] && words[k + 1] in words;
    }
  }

  /**
   * When the trimmed text after the prefix reads `<word><spaces><rest>`,
   * the command is the lowercased word and the joined arguments (the product
   * of `queue-add`) are `rest` with each run of spaces shortened to one.
   */
  lemma {:induction false} TokeniseCommandLine(content: string, word: string, gap: nat, rest: string)
    requires Trim(Slice(content, |Prefix|)) == word + Spaces(gap) + rest
    requires word != [] && NoSpace(word) && gap >= 1
    requires rest != [] && rest[0] != ' '
    ensures Tokenise(content).command == ToLower(word)
    ensures Join(Tokenise(content).args) == CollapseSpaces(rest)
  {
    SplitAfterWord(word, gap, rest);
    JoinSplitCollapses(rest);
  }

  /** Every label of the listing reads back, through parseInt, as the index queue-remove accepts for that entry. */
  lemma {:induction false} LabelIsRemoveIndex(q: seq<Entry>, k: nat)
    requires k < |q|
    ensures ParseInt(Some(Label(k))) == Some(k + 1)
    ensures ValidIndex(ParseInt(Some(Label(k))), |q|)
  {
    ParseDecimalString(k + 1, ".");
  }

  /** The guard of index.js:82, negated: a number in 1..length. */
  predicate ValidIndex(index: Option<int>, length: nat) {
    index.Some? && 0 < index.value <= length
  }

  /** The queue, the backing file and the number of saves, at one moment. */
  datatype Snapshot = Snapshot(queue: seq<Entry>, disk: FileState, saves: nat)

  ghost predicate InSync(s: Snapshot) {
    s.disk == Saved(s.queue)
  }

  /** Exactly one save of the new queue ran; a failed write leaves the file unknown. */
  ghost predicate SavedOnce(before: Snapshot, after: Snapshot, writeOk: bool) {
    after.saves == before.saves + 1 && (writeOk ==> InSync(after))
  }

  ghost predicate AddStep(before: Snapshot, after: Snapshot, entry: Entry, writeOk: bool) {
    after.queue == before.queue + [entry] && SavedOnce(before, after, writeOk)
  }

  ghost predicate RemoveStep(before: Snapshot, after: Snapshot, index: Option<int>, writeOk: bool, out: Outcome) {
    if !ValidIndex(index, |before.queue|) then
      out == Replied(InvalidIndex) && after == before
    else
      var i := index.value;
      var removed := before.queue[i - 1];
      && after.queue == before.queue[..i - 1] + before.queue[i..]
      && (removed.user.None? ==> out == Threw && after.disk == before.disk && after.saves == before.saves)
      && (removed.user.Some? ==> out == Replied(Removed(removed.user.value.tag)) && SavedOnce(before, after, writeOk))
  }

  ghost predicate ClearStep(before: Snapshot, after: Snapshot, writeOk: bool, out: Reply) {
    if before.queue == [] then out == AlreadyEmpty && after == before
    else out == Cleared && after.queue == [] && SavedOnce(before, after, writeOk)
  }

  /** The reply of queue-view: the empty notice, or one field per entry in order. */
  ghost predicate ListsQueue(q: seq<Entry>, r: Reply) {
    if q == [] then r == QueueEmpty
    else
      && r.Listing? && |r.fields| == |q|
      && forall k :: 0 <= k < |q| ==> r.fields[k] == Field(Label(k), q[k].product)
  }

  /**
   * A valid removal deletes exactly the entry at position i (1-based):
   * the ones before it stay in place, the ones after it move up one, and
   * nothing else is lost or gained.
   */
  lemma {:induction false} RemoveAtShifts(q: seq<Entry>, i: nat)
    requires 0 < i <= |q|
    ensures var r := q[..i - 1] + q[i..];
      && |r| == |q| - 1
      && (forall k :: 0 <= k < i - 1 ==> r[k] == q[k])
      && (forall k :: i - 1 <= k < |r| ==> r[k] == q[k + 1])
      && multiset(r) + multiset{q[i - 1]} == multiset(q)
  {
    assert q == q[..i - 1] + [q[i - 1]] + q[i..];
  }

  /**
   * A removal that throws (the entry was added without a mention) leaves
   * the queue shorter than the file, and a restart from that file brings
   * the removed entry back.
   */
  lemma {:induction false} ThrownRemovalDiverges(before: Snapshot, after: Snapshot, index: Option<int>, writeOk: bool)
    requires InSync(before)
    requires RemoveStep(before, after, index, writeOk, Threw)
    ensures !InSync(after)
    ensures Restored(after.disk) == before.queue
    ensures |Restored(after.disk)| == |after.queue| + 1
  {
  }

  /** A restart after a successful save loads the queue that was saved. */
  lemma {:induction false} RestartAfterSave(s: Snapshot)
    requires InSync(s)
    ensures Restored(s.disk) == s.queue
  {
  }

  /** Every command keeps the file equal to the queue, unless a write fails or a removal throws. */
  lemma {:induction false} StepsKeepSync(before: Snapshot, after: Snapshot, index: Option<int>, entry: Entry, out: Outcome, reply: Reply)
    requires InSync(before)
    ensures AddStep(before, after, entry, true) ==> InSync(after)
    ensures RemoveStep(before, after, index, true, out) && out != Threw ==> InSync(after)
    ensures ClearStep(before, after, true, reply) ==> InSync(after) && after.disk == Saved([])
  {
  }

  class Bot {
    /** The module-level `queue` array. */
    var queue: seq<Entry>
    /** The backing file `queue.json`. */
    ghost var disk: FileState
    /** How many times `saveQueueToFile` has run. */
    ghost var saves: nat
    /** `config.allowedUserIds`. */
    const allowedUserIds: seq<string>

    ghost function State(): Snapshot
      reads this
    {
      Snapshot(queue, disk, saves)
    }

    ghost predicate Synced()
      reads this
    {
      InSync(State())
    }

    /**
     * Startup: the queue is what the file held; a missing file is created
     * holding the empty list; an unreadable one yields the empty queue and
     * is left as it is.
     */
    constructor Load(file: FileState, allowedUserIds: seq<string>)
      ensures this.allowedUserIds == allowedUserIds
      ensures queue == Restored(file) && saves == 0
      ensures disk == if file.Absent? then Saved([]) else file
      ensures !file.Corrupt? ==> Synced()
    {
      this.allowedUserIds := allowedUserIds;
      queue := [];
      disk := file;
      saves := 0;
      match file {
        case Saved(entries) =>
          queue := entries;
        case Absent =>
          disk := Saved([]);
        case Corrupt =>
      }
    }

    /** `saveQueueToFile`: overwrite the file with the queue; a failure is logged and swallowed. */
    method SaveQueueToFile(writeOk: bool)
      modifies this`disk, this`saves
      ensures SavedOnce(old(State()), State(), writeOk)
    {
      saves := saves + 1;
      if writeOk {
        disk := Saved(queue);
      } else {
        disk := *;
      }
    }

    /** `queue-add`: append the request and save. */
    method QueueAdd(user: Option<UserRef>, args: seq<string>, writeOk: bool) returns (reply: Reply)
      modifies this`queue, this`disk, this`saves
      ensures AddStep(old(State()), State(), Entry(user, Join(args)), writeOk)
      ensures reply == Added(Join(args))
    {
      var product := Join(args);
      queue := queue + [Entry(user, product)];
      reply := Added(product);
      SaveQueueToFile(writeOk);
    }

    /** `queue-view`: the empty notice, or a numbered field per entry. */
    method QueueView() returns (reply: Reply)
      ensures ListsQueue(queue, reply)
    {
      if |queue| == 0 {
        return QueueEmpty;
      }
      var q := queue;
      var fields := [];
      var index := 0;
      while index < |q|
        invariant 0 <= index <= |q|
        invariant |fields| == index
        invariant forall k :: 0 <= k < index ==> fields[k] == Field(Label(k), q[k].product)
      {
        fields := fields + [Field(Label(index), q[index].product)];
        index := index + 1;
      }
      reply := Listing(fields);
    }

    /** `queue.splice(index - 1, 1)[0]`. */
    method Splice(index: int) returns (removed: Entry)
      requires 0 < index <= |queue|
      modifies this`queue
      ensures removed == old(queue)[index - 1]
      ensures queue == old(queue)[..index - 1] + old(queue)[index..]
    {
      removed := queue[index - 1];
      queue := queue[..index - 1] + queue[index..];
    }

    /**
     * `queue-remove`: check the index, splice, reply with the requester's
     * tag, save. Reading the tag of an entry without a user throws after
     * the splice and before the save.
     */
    method QueueRemove(arg: Option<string>, writeOk: bool) returns (out: Outcome)
      modifies this`queue, this`disk, this`saves
      ensures RemoveStep(old(State()), State(), ParseInt(arg), writeOk, out)
    {
      var indexToRemove := ParseInt(arg);
      if indexToRemove.None? || indexToRemove.value <= 0 || indexToRemove.value > |queue| {
        return Replied(InvalidIndex);
      }
      var removedEntry := Splice(indexToRemove.value);
      if removedEntry.user.None? {
        return Threw;
      }
      out := Replied(Removed(removedEntry.user.value.tag));
      SaveQueueToFile(writeOk);
    }

    /** `queue-clear`: refuse on an empty queue, otherwise truncate and save. */
    method QueueClear(writeOk: bool) returns (reply: Reply)
      modifies this`queue, this`disk, this`saves
      ensures ClearStep(old(State()), State(), writeOk, reply)
    {
      if |queue| == 0 {
        return AlreadyEmpty;
      }
      queue := [];
      SaveQueueToFile(writeOk);
      reply := Cleared;
    }

    /** The `messageCreate` handler: gate, tokenise, dispatch on the command word. */
    method HandleMessage(m: Message, writeOk: bool) returns (out: Outcome)
      modifies this`queue, this`disk, this`saves
      ensures m.authorIsBot || !StartsWith(m.content, Prefix) ==>
        out == Silent && State() == old(State())
      ensures !m.authorIsBot && StartsWith(m.content, Prefix) && m.authorId !in allowedUserIds ==>
        out == Replied(NotAuthorized) && State() == old(State())
      ensures !m.authorIsBot && StartsWith(m.content, Prefix) && m.authorId in allowedUserIds ==>
        var t := Tokenise(m.content);
        && (t.command == AddCommand ==>
              out == Replied(Added(Join(t.args)))
              && AddStep(old(State()), State(), Entry(FirstMention(m), Join(t.args)), writeOk))
        && (t.command == ViewCommand ==>
              out.Replied? && ListsQueue(queue, out.reply) && State() == old(State()))
        && (t.command == RemoveCommand ==>
              RemoveStep(old(State()), State(), ParseInt(FirstArg(t.args)), writeOk, out))
        && (t.command == ClearCommand ==>
              out.Replied? && ClearStep(old(State()), State(), writeOk, out.reply))
        && (t.command !in {AddCommand, ViewCommand, RemoveCommand, ClearCommand} ==>
              out == Silent && State() == old(State()))
      ensures old(Synced()) && writeOk && out != Threw ==> Synced()
      ensures out == Threw ==> old(Synced()) ==> !Synced() && Restored(disk) == old(queue)
    {
      if m.authorIsBot || !StartsWith(m.content, Prefix) {
        return Silent;
      }
      if m.authorId !in allowedUserIds {
        return Replied(NotAuthorized);
      }
      var t := Tokenise(m.content);
      if t.command == AddCommand {
        var reply := QueueAdd(FirstMention(m), t.args, writeOk);
        out := Replied(reply);
      } else if t.command == ViewCommand {
        var reply := QueueView();
        out := Replied(reply);
      } else if t.command == RemoveCommand {
        out := QueueRemove(FirstArg(t.args), writeOk);
      } else if t.command == ClearCommand {
        var reply := QueueClear(writeOk);
        out := Replied(reply);
      } else {
        out := Silent;
      }
    }
  }

  /** Two adds, two out-of-range removes, a remove of the first entry, then two clears. */
  method WidgetGadgetWalkThrough(a: UserRef, b: UserRef)
  {
    var bot := new Bot.Load(Absent, [a.id]);
    var r := bot.QueueAdd(Some(a), ["widget"], true);
    assert bot.queue == [Entry(Some(a), "widget")];
    r := bot.QueueAdd(Some(b), ["gadget"], true);
    var bad := bot.QueueRemove(Some("0"), true);
    assert ParseInt(Some("0")) == Some(0) by { ParseDecimalString(0, ""); }
    assert bad == Replied(InvalidIndex) && |bot.queue| == 2;
    bad := bot.QueueRemove(Some("5"), true);
    assert ParseInt(Some("5")) == Some(5) by { ParseDecimalString(5, ""); }
    assert bad == Replied(InvalidIndex) && |bot.queue| == 2;
    var out := bot.QueueRemove(Some("1"), true);
    assert ParseInt(Some("1")) == Some(1) by { ParseDecimalString(1, ""); }
    assert out == Replied(Removed(a.tag));
    assert bot.queue == [Entry(Some(b), "gadget")] && bot.Synced();
    r := bot.QueueClear(true);
    assert bot.queue == [] && bot.disk == Saved([]);
    r := bot.QueueClear(true);
    assert r == AlreadyEmpty;
  }

  /**
   * `queue-add` with no mention and no text is accepted, and removing that
   * entry throws after the splice, before the save.
   */
  method UnmentionedEntryWalkThrough()
  {
    var bot := new Bot.Load(Saved([]), []);
    var r := bot.QueueAdd(None, [], true);
    assert bot.queue == [Entry(None, "")] && bot.Synced();
    var out := bot.QueueRemove(Some("1"), true);
    assert ParseInt(Some("1")) == Some(1) by { ParseDecimalString(1, ""); }
    assert out == Threw && bot.queue == [] && bot.disk == Saved([Entry(None, "")]);
  }
}
