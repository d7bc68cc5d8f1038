/** The stateful part of the NewRelic trait: the stored transaction name, how
    `setName` writes it and how `getName`, `_getTransactionName` and `start`
    read it. The monitoring client itself is not modelled; `start` only
    records, in a ghost log, the name it would hand to the client. */
module NewRelic {
  import opened Php
  import opened Naming

  class NewRelicTrait {
    /** `_name`: the stored transaction name, null until `setName` is called. */
    var name: Option<string>
    /** The names `start` has passed to the monitoring client, oldest first. */
    ghost var started: seq<Option<string>>

    constructor ()
      ensures name == None && started == []
    {
      name := None;
      started := [];
    }

    /** `setName`: resolves the argument and stores it; nothing else changes. */
    method SetName(x: NameInput)
      modifies this`name
      ensures name == ResolveName(x)
      ensures started == old(started)
    {
      var resolved := x;
      if resolved.ShellIn? {
        resolved := Str(DeriveNameFromShell(resolved.shell));
      }
      if resolved.RequestIn? {
        resolved := Str(DeriveNameFromRequest(resolved.request));
      }
      name := if resolved.Str? then Some(resolved.s) else None;
    }

    /** `getName`: the stored name. */
    method GetName() returns (r: Option<string>)
      ensures r == name
    {
      r := name;
    }

    /** `_getTransactionName`: a string argument, even "", wins over the
        stored name; null falls back to the stored name. */
    method GetTransactionName(override: Option<string>) returns (r: Option<string>)
      ensures override.Some? ==> r == override
      ensures override.None? ==> r == name
    {
      if override.Some? {
        r := override;
      } else {
        r := name;
      }
    }

    /** `start`: hands the effective transaction name to the client; the
        stored name is left as it was. */
    method Start(override: Option<string>)
      modifies this`started
      ensures started == old(started) + [if override.Some? then override else name]
      ensures name == old(name)
    {
      var effective := GetTransactionName(override);
      started := started + [effective];
    }
  }

  /** `getName` after `setName(x)` on a fresh trait returns the name `x`
      resolves to. */
  method SetThenGetName(x: NameInput) returns (got: Option<string>)
    ensures got == ResolveName(x)
    ensures x.Str? ==> got == Some(x.s)
    ensures x.ShellIn? ==> got == Some(DeriveNameFromShell(x.shell))
    ensures x.RequestIn? ==> got == Some(DeriveNameFromRequest(x.request))
  {
    var t := new NewRelicTrait();
    t.SetName(x);
    got := t.GetName();
  }

  /** After `setName(stored)` and `start(override)` on a fresh trait, the
      client has been handed exactly one name: the override when it is a
      string, the stored name otherwise; the stored name is unchanged. */
  method StartAfterSetName(stored: NameInput, override: Option<string>)
    returns (ghost log: seq<Option<string>>, after: Option<string>)
    ensures log == [if override.Some? then override else ResolveName(stored)]
    ensures after == ResolveName(stored)
  {
    var t := new NewRelicTrait();
    t.SetName(stored);
    t.Start(override);
    log := t.started;
    after := t.GetName();
  }
}
