/** The named buffer store of js/services/buffers.js: a table from buffer
    name to buffer, and the counter from which `add` mints the next name
    'b1', 'b2', ... Buffers are objects whose text, language and selection
    `update` changes in place, announcing each change on the root scope. */
module Buffers {
  import opened Wrappers

  // ---------------------------------------------------------------------
  // Names

  /** The decimal digit `d`. */
  function Digit(d: nat): (c: char)
    requires d < 10
    ensures c as int == '0' as int + d
  {
    ('0' as int + d) as char
  }

  /** The decimal form of `n`, as JavaScript writes a whole number. */
  function DecimalString(n: nat): (r: string)
    ensures |r| >= 1
    ensures n >= 10 ==> |r| >= 2
  {
    if n < 10 then [Digit(n)] else DecimalString(n / 10) + [Digit(n % 10)]
  }

  /** Different numbers have different decimal forms. */
  lemma {:induction false} DecimalStringInjective(a: nat, b: nat)
    requires DecimalString(a) == DecimalString(b)
    ensures a == b
  {
    var r := DecimalString(a);
    if a >= 10 && b >= 10 {
      assert r[|r| - 1] == Digit(a % 10) && r[|r| - 1] == Digit(b % 10);
      assert r[..|r| - 1] == DecimalString(a / 10);
      assert r[..|r| - 1] == DecimalString(b / 10);
      DecimalStringInjective(a / 10, b / 10);
    } else {
      assert r[0] == Digit(a % 10) || a >= 10;
    }
  }

  /** The name `add` gives the buffer it creates with counter value `k`. */
  function BufferName(k: nat): string {
    "b" + DecimalString(k)
  }

  /** Different counter values give different names. */
  lemma BufferNameInjective(a: nat, b: nat)
    requires BufferName(a) == BufferName(b)
    ensures a == b
  {
    assert BufferName(a)[1..] == DecimalString(a);
    assert BufferName(b)[1..] == DecimalString(b);
    DecimalStringInjective(a, b);
  }

  // ---------------------------------------------------------------------
  // Buffers

  /** A row and column in a buffer's text. */
  datatype Position = Position(row: int, column: int)

  /** A selection, from `start` to `end`. */
  datatype Selection = Selection(start: Position, end: Position)

  /** The selection of a new buffer: the empty range at the very start. */
  const EmptySelection := Selection(Position(0, 0), Position(0, 0))

  /** The options a buffer is created with: options.language and
      options.languages, each when set. */
  datatype BufferOptions = BufferOptions(language: Option<string>, languages: Option<seq<string>>)

  /** `{}`, what a buffer created without options has. */
  const NoOptions := BufferOptions(None, None)

  /** The argument of `update`: each of text, language and selection when it
      is one of the argument's keys. */
  datatype Attrs = Attrs(text: Option<string>, language: Option<string>, selection: Option<Selection>)

  /** What a buffer shows: its text, language and selection. */
  datatype Contents = Contents(text: string, language: string, selection: Selection)

  /** `this.options.language || 'text'`: an absent or empty language is
      'text'. */
  function LanguageOf(options: BufferOptions): (r: string)
    ensures r != ""
    ensures options.language.Some? && options.language.value != "" ==> r == options.language.value
    ensures options.language.None? || options.language.value == "" ==> r == "text"
  {
    if options.language.Some? && options.language.value != "" then options.language.value else "text"
  }

  /** The contents of a buffer created with `text` and `options`. */
  function Initial(text: Option<string>, options: BufferOptions): (c: Contents)
    ensures c.text == (if text.Some? then text.value else "")
    ensures c.language == LanguageOf(options) && c.selection == EmptySelection
  {
    Contents(if text.Some? then text.value else "", LanguageOf(options), EmptySelection)
  }

  /** The contents after `update(attrs)`: the keys present in `attrs` are
      assigned, the others keep their value. */
  function Updated(c: Contents, attrs: Attrs): (r: Contents)
    ensures attrs.text.Some? ==> r.text == attrs.text.value
    ensures attrs.text.None? ==> r.text == c.text
    ensures attrs.language.Some? ==> r.language == attrs.language.value
    ensures attrs.language.None? ==> r.language == c.language
    ensures attrs.selection.Some? ==> r.selection == attrs.selection.value
    ensures attrs.selection.None? ==> r.selection == c.selection
  {
    Contents(if attrs.text.Some? then attrs.text.value else c.text,
             if attrs.language.Some? then attrs.language.value else c.language,
             if attrs.selection.Some? then attrs.selection.value else c.selection)
  }

  /** An update without keys changes nothing, and an update applied twice
      is the update applied once. */
  lemma UpdatedIdempotent(c: Contents, attrs: Attrs)
    ensures Updated(c, Attrs(None, None, None)) == c
    ensures Updated(Updated(c, attrs), attrs) == Updated(c, attrs)
  {
  }

  /** Updates of disjoint keys commute. */
  lemma UpdatedCommute(c: Contents, a: Attrs, b: Attrs)
    requires a.text.None? || b.text.None?
    requires a.language.None? || b.language.None?
    requires a.selection.None? || b.selection.None?
    ensures Updated(Updated(c, a), b) == Updated(Updated(c, b), a)
  {
  }

  /** The root scope event a buffer emits for `signal`. */
  function SignalName(name: string, signal: string): (r: string)
    ensures |r| == |"fioi-editor2_buffer-"| + |name| + 1 + |signal|
    ensures r[..|"fioi-editor2_buffer-"|] == "fioi-editor2_buffer-"
    ensures var p := |"fioi-editor2_buffer-"|;
      r[p..p + |name|] == name && r[p + |name|] == '_' && r[p + |name| + 1..] == signal
  {
    "fioi-editor2_buffer-" + name + "_" + signal
  }

  /** The same signal of two different buffers has two different names, so
      a listener hears only its own buffer. */
  lemma SignalNameInjective(n1: string, n2: string, signal: string)
    requires SignalName(n1, signal) == SignalName(n2, signal)
    ensures n1 == n2
  {
    var p := |"fioi-editor2_buffer-"|;
    assert SignalName(n1, signal)[p..p + |n1|] == n1;
    assert SignalName(n2, signal)[p..p + |n2|] == n2;
  }

  /** What `$languages` yields: the buffer's own list, or the tab's. */
  datatype Languages = Own(list: seq<string>) | FromTab

  /** The Angular root scope, reduced to the events emitted on it. */
  class RootScope {
    var emitted: seq<string>

    constructor ()
      ensures emitted == []
    {
      emitted := [];
    }
  }

  /** A buffer; `scope` is the root scope of the service that made it. */
  class Buffer {
    var options: BufferOptions
    const name: string
    var text: string
    var selection: Selection
    var language: string
    const scope: RootScope

    /** What the buffer shows. */
    function Current(): Contents
      reads this
    {
      Contents(text, language, selection)
    }

    /** new Buffer(name, text, options) */
    constructor (name: string, text: Option<string>, options: Option<BufferOptions>, scope: RootScope)
      ensures this.name == name && this.scope == scope
      ensures this.options == (if options.Some? then options.value else NoOptions)
      ensures Current() == Initial(text, this.options)
    {
      this.options := if options.Some? then options.value else NoOptions;
      this.name := name;
      this.text := if text.Some? then text.value else "";
      this.selection := EmptySelection;
      this.scope := scope;
      new;
      this.language := LanguageOf(this.options);
    }

    /** Buffer.prototype.update: assign the keys present in `attrs`, then
        emit 'changed'. */
    method Update(attrs: Attrs)
      modifies this, scope
      ensures Current() == Updated(old(Current()), attrs)
      ensures options == old(options)
      ensures scope.emitted == old(scope.emitted) + [SignalName(name, "changed")]
    {
      if attrs.text.Some? {
        text := attrs.text.value;
      }
      if attrs.language.Some? {
        language := attrs.language.value;
      }
      if attrs.selection.Some? {
        selection := attrs.selection.value;
      }
      Emit("changed");
    }

    /** Buffer.prototype.getLanguages: the buffer's own list when its
        options have one, else the tab's. */
    function GetLanguages(): (r: Languages)
      reads this
      ensures r.Own? <==> options.languages.Some?
      ensures r.Own? ==> r.list == options.languages.value
    {
      if options.languages.Some? then Own(options.languages.value) else FromTab
    }

    /** Buffer.prototype._emit */
    method Emit(signal: string)
      modifies scope
      ensures scope.emitted == old(scope.emitted) + [SignalName(name, signal)]
    {
      scope.emitted := scope.emitted + [SignalName(name, signal)];
    }
  }

  // ---------------------------------------------------------------------
  // The store

  /** The service: the table of buffers by name, the counter the next name
      is minted from, and (as a ghost) every name minted so far. */
  class BufferStore {
    var buffers: map<string, Buffer>
    var nextId: nat
    const scope: RootScope
    ghost var issued: set<string>

    /** Each buffer is stored under its own name; every stored name was
        minted; no name the counter will mint has been minted yet. */
    ghost predicate Valid()
      reads this
    {
      && nextId >= 1
      && buffers.Keys <= issued
      && (forall name :: name in buffers ==> buffers[name].name == name)
      && (forall k: nat :: k >= nextId ==> BufferName(k) !in issued)
    }

    /** The name the next `add` gives. */
    function NextName(): (r: string)
      reads this
      requires Valid()
      ensures r !in buffers
    {
      BufferName(nextId)
    }

    constructor (scope: RootScope)
      ensures Valid() && this.scope == scope
      ensures buffers == map[] && nextId == 1 && issued == {}
    {
      buffers := map[];
      nextId := 1;
      this.scope := scope;
      issued := {};
    }

    /** service.add: a new buffer named 'b' + nextId, stored under that
        name. The name was never minted before, so no buffer, present or
        removed, ever had it. */
    method Add(text: Option<string>, options: Option<BufferOptions>) returns (b: Buffer)
      requires Valid()
      modifies this
      ensures Valid()
      ensures fresh(b) && b.name == BufferName(old(nextId)) && b.scope == scope
      ensures b.name !in old(buffers) && b.name !in old(issued) && issued == old(issued) + {b.name}
      ensures b.options == (if options.Some? then options.value else NoOptions)
      ensures b.Current() == Initial(text, b.options)
      ensures nextId == old(nextId) + 1
      ensures buffers == old(buffers)[b.name := b]
      ensures Get(b.name) == Some(b)
    {
      var name := BufferName(nextId);
      nextId := nextId + 1;
      b := new Buffer(name, text, options, scope);
      buffers := buffers[name := b];
      issued := issued + {name};
      forall k: nat | k >= nextId
        ensures BufferName(k) !in issued
      {
        if BufferName(k) == name {
          BufferNameInjective(k, nextId - 1);
        }
      }
    }

    /** service.remove: drop the entry for `name`, if there is one. */
    method Remove(name: string)
      requires Valid()
      modifies this`buffers
      ensures Valid()
      ensures buffers == old(buffers) - {name}
      ensures name !in old(buffers) ==> buffers == old(buffers)
      ensures Get(name) == None
    {
      if name in buffers {
        buffers := buffers - {name};
      }
    }

    /** service.get: the buffer stored under `name`, if any. */
    function Get(name: string): (r: Option<Buffer>)
      reads this
      ensures r.Some? <==> name in buffers
      ensures r.Some? ==> r.value == buffers[name]
      ensures Valid() && r.Some? ==> r.value.name == name
    {
      if name in buffers then Some(buffers[name]) else None
    }
  }
}
