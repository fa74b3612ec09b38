/**
 * The registry of custom-type result builders: a table keyed by
 * `"keyspace.identifier"` with a default builder answering every key that has
 * no entry of its own. Builders are accepted only when they have the three
 * capabilities the decoder needs.
 */
module Builders {
  import opened Wrappers

  /**
   * A builder class, seen through the three questions the registry asks of it:
   * does it respond to `.new`, and does it define `#[]=` and `#build`.
   */
  datatype Builder = Builder(name: string, respondsToNew: bool, definesIndexAssign: bool, definesBuild: bool)

  /** `valid_builder?`: all three capabilities at once. */
  predicate ValidBuilder(b: Builder)
  {
    b.respondsToNew && b.definesIndexAssign && b.definesBuild
  }

  /** The exception `validate_builder` raises. */
  datatype ArgumentError = ArgumentError(message: string)

  /** The message of that exception for a refused builder. */
  function InvalidBuilderError(b: Builder): (e: ArgumentError)
    ensures |b.name| < |e.message| && e.message[..|b.name|] == b.name
  {
    ArgumentError(b.name + " is not a valid builder class. " + "Builders must respond to .new, #[]=, and #build")
  }

  /** `validate_builder`: pass a valid builder, refuse any other with `ArgumentError`. */
  function Validate(b: Builder): (r: Outcome<ArgumentError>)
    ensures r.Pass? <==> ValidBuilder(b)
    ensures r.Fail? ==> r.error == InvalidBuilderError(b)
  {
    if ValidBuilder(b) then Pass else Fail(InvalidBuilderError(b))
  }

  /** `determine_key`: the keyspace, a dot, the identifier. */
  function Key(keyspace: string, identifier: string): (k: string)
    ensures |k| == |keyspace| + 1 + |identifier|
    ensures k[..|keyspace|] == keyspace && k[|keyspace|] == '.' && k[|keyspace| + 1..] == identifier
  {
    keyspace + "." + identifier
  }

  /** The key is a plain concatenation, so a dot inside the keyspace can make two pairs share one slot. */
  lemma KeysCollide()
    ensures Key("a.b", "c") == Key("a", "b.c")
    ensures ("a.b", "c") != ("a", "b.c")
  {
    assert Key("a.b", "c") == "a.b.c";
    assert Key("a", "b.c") == "a.b.c";
  }

  /** Without a dot in either keyspace, the key determines the pair. */
  lemma {:induction false} KeyInjective(ks1: string, id1: string, ks2: string, id2: string)
    requires '.' !in ks1 && '.' !in ks2
    requires Key(ks1, id1) == Key(ks2, id2)
    ensures ks1 == ks2 && id1 == id2
  {
  }

  /**
   * `Registry`: the builder table and its default. `add` and `remove` replace the
   * table with an updated copy (which keeps the default), `default=` sets the default.
   */
  class Registry {
    /** `@builders`, without its default. */
    var builders: map<string, Builder>
    /** `@builders.default`. */
    var defaultBuilder: Builder

    /** Only valid builders are ever stored or made the default. */
    ghost predicate Valid()
      reads this
    {
      ValidBuilder(defaultBuilder) && forall k :: k in builders ==> ValidBuilder(builders[k])
    }

    /** `Registry.new(default_builder)` once `default=` has accepted the builder: an empty table. */
    constructor (defaultBuilder': Builder)
      requires ValidBuilder(defaultBuilder')
      ensures Valid()
      ensures builders == map[] && defaultBuilder == defaultBuilder'
    {
      builders := map[];
      defaultBuilder := defaultBuilder';
    }

    /** `Registry.new(default_builder)`: raises `ArgumentError` unless the default is valid. */
    static method Create(b: Builder) returns (r: Result<Registry, ArgumentError>)
      ensures r.Ok? <==> ValidBuilder(b)
      ensures r.Ok? ==> fresh(r.value) && r.value.Valid() && r.value.builders == map[] && r.value.defaultBuilder == b
      ensures r.Err? ==> r.error == InvalidBuilderError(b)
    {
      var v := Validate(b);
      if v.Fail? {
        return Err(v.error);
      }
      var reg := new Registry(b);
      r := Ok(reg);
    }

    /** `fetch(keyspace, identifier)`: the builder stored under the key, else the default. */
    function Fetch(keyspace: string, identifier: string): (b: Builder)
      reads this
      ensures Valid() ==> ValidBuilder(b)
      ensures b == defaultBuilder || b in builders.Values
      ensures Key(keyspace, identifier) in builders ==> b == builders[Key(keyspace, identifier)]
      ensures Key(keyspace, identifier) !in builders ==> b == defaultBuilder
    {
      var key := Key(keyspace, identifier);
      if key in builders then builders[key] else defaultBuilder
    }

    /**
     * `add(keyspace, identifier, builder)`: an invalid builder raises before anything
     * changes; a valid one is stored under the key, nothing else changes, and from then on
     * that key fetches it.
     */
    method Add(keyspace: string, identifier: string, b: Builder) returns (r: Outcome<ArgumentError>)
      requires Valid()
      modifies this`builders
      ensures Valid()
      ensures r.Pass? <==> ValidBuilder(b)
      ensures r.Fail? ==> r.error == InvalidBuilderError(b) && builders == old(builders)
      ensures r.Pass? ==> builders == old(builders)[Key(keyspace, identifier) := b]
      ensures r.Pass? ==> Fetch(keyspace, identifier) == b
      ensures forall k :: k != Key(keyspace, identifier) ==>
        (k in builders <==> k in old(builders)) && (k in builders ==> builders[k] == old(builders)[k])
    {
      var v := Validate(b);
      if v.Fail? {
        return Fail(v.error);
      }
      var key := Key(keyspace, identifier);
      var copy := builders;
      copy := copy[key := b];
      builders := copy;
      r := Pass;
    }

    /**
     * `remove(keyspace, identifier)`: the key loses its entry and fetches the default again;
     * every other key and the default are unchanged, and an absent key changes nothing.
     */
    method Remove(keyspace: string, identifier: string)
      requires Valid()
      modifies this`builders
      ensures Valid()
      ensures builders == old(builders) - {Key(keyspace, identifier)}
      ensures Fetch(keyspace, identifier) == defaultBuilder
      ensures Key(keyspace, identifier) !in old(builders) ==> builders == old(builders)
    {
      var key := Key(keyspace, identifier);
      var copy := builders;
      copy := copy - {key};
      builders := copy;
    }

    /**
     * `default=(builder)`: an invalid builder raises and the old default stays; a valid one
     * becomes the answer for every key without an entry, and is returned.
     */
    method SetDefault(b: Builder) returns (r: Result<Builder, ArgumentError>)
      requires Valid()
      modifies this`defaultBuilder
      ensures Valid()
      ensures r.Ok? <==> ValidBuilder(b)
      ensures r.Err? ==> r.error == InvalidBuilderError(b) && defaultBuilder == old(defaultBuilder)
      ensures r.Ok? ==> r.value == b && defaultBuilder == b
      ensures r.Ok? ==> forall ks, id :: Key(ks, id) !in builders ==> Fetch(ks, id) == b
    {
      var v := Validate(b);
      if v.Fail? {
        return Err(v.error);
      }
      defaultBuilder := b;
      r := Ok(b);
    }
  }
}
