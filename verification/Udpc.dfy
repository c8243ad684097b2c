/**
 * The UDP client as an object (`udp/client`): each operation changes the fields in place as the
 * original does, and is proved to be the corresponding function of `ClientLifecycle`.
 */
module Udpc {
  import opened Prelude
  import opened L = ClientLifecycle

  class Client {
    const cfg: Config
    var session: Option<nat>
    var channel: Option<nat>
    var Id: string
    var Data: Option<bool>
    var init: bool
    var Connected: bool
    var Exit: bool
    var Closed: bool
    var dials: nat
    var readers: set<nat>
    var reconnects: nat
    var closes: nat

    function Abs(): State
      reads this
    {
      State(session, channel, Id, Data, init, Connected, Exit, Closed, dials, readers, reconnects, closes)
    }

    constructor (cfg: Config)
      ensures this.cfg == cfg && Abs() == NEW
    {
      this.cfg := cfg;
      session, channel, Id, Data, init := None, None, "", None, false;
      Connected, Exit, Closed := false, false, false;
      dials, readers, reconnects, closes := 0, {}, 0, 0;
    }

    method ResetLink()
      modifies this
      ensures Abs() == Reset(old(Abs()))
    {
      Connected := false;
      if channel.Some? {
        channel := None;
      }
      if session.Some? {
        session := None;
      }
    }

    method DialServer(dial: Dial) returns (ok: bool)
      modifies this
      ensures Abs() == DialOnce(old(Abs()), dial) && ok == dial.Linked?
    {
      ResetLink();
      var n := dials;
      dials := dials + 1;
      if dial.DialFails? {
        return false;
      }
      session := Some(n);
      if dial.StreamFails? {
        return false;
      }
      channel := Some(n);
      return true;
    }

    method HandleInitData(status: bool, id: string) returns (ok: bool)
      modifies this
      ensures ok == status
      ensures Abs() == if status then old(Abs()).(data := Some(true), id := id, init := true)
        else old(Abs()).(data := Some(false))
    {
      Data := Some(status);
      if !status {
        return false;
      }
      Id := id;
      init := true;
      return true;
    }

    method InitializeClient(reply: InitReply) returns (ok: bool)
      requires session.Some?
      modifies this
      ensures Abs() == Initialize(old(Abs()), reply) && ok == Accepts(reply)
    {
      if reply.NoReply? {
        return false;
      }
      ok := HandleInitData(reply.status, reply.id);
      if !ok {
        return;
      }
      readers := readers + {session.value};
      Connected := true;
    }

    /** `Connect`. */
    method Connect(script: seq<Attempt>) returns (v: Verdict)
      modifies this
      ensures (Abs(), v) == L.Connect(cfg, old(Abs()), script)
    {
      if Closed {
        return Down;
      }
      var tries := 0;
      var linked := false;
      while !linked
        invariant tries <= |script| && (linked ==> 0 < tries && session.Some?)
        invariant ConnectLoop(cfg, old(Abs()), script, 0)
               == if linked then AfterLink(Abs(), script[tries - 1].reply)
                 else ConnectLoop(cfg, Abs(), script[tries..], tries)
        decreases |script| - tries, !linked
      {
        if tries == |script| {
          return if cfg.customConnect || CanTry(cfg.connectTries, tries) then StillTrying else Down;
        }
        if !May(cfg.customConnect, cfg.connectTries, tries, script[tries].allowed) {
          return Down;
        }
        assert script[tries..][1..] == script[tries + 1..];
        linked := DialServer(script[tries].dial);
        tries := tries + 1;
      }
      var ok := InitializeClient(script[tries - 1].reply);
      if !ok {
        closes := closes + 1;
        return Down;
      }
      return Up;
    }

    /** `reconnect`. */
    method Reconnect(script: seq<Attempt>) returns (v: Verdict)
      modifies this
      ensures (Abs(), v) == L.Reconnect(cfg, old(Abs()), script)
    {
      if Closed {
        return Down;
      }
      var tries := 0;
      while true
        invariant tries <= |script|
        invariant ReconnectLoop(cfg, old(Abs()), script, 0) == ReconnectLoop(cfg, Abs(), script[tries..], tries)
        decreases |script| - tries
      {
        if tries == |script| && (cfg.customReconnect || CanTry(cfg.reconnectTries, tries)) {
          return StillTrying;
        }
        if tries == |script| || !May(cfg.customReconnect, cfg.reconnectTries, tries, script[tries].allowed) {
          break;
        }
        assert script[tries..][1..] == script[tries + 1..];
        var linked := DialServer(script[tries].dial);
        if linked {
          var ok := InitializeClient(script[tries].reply);
          if ok {
            return Up;
          }
          if Data == Some(false) {
            break;
          }
        }
        tries := tries + 1;
      }
      closes := closes + 1;
      return Down;
    }

    /** `Close`. */
    method Close()
      modifies this
      ensures Abs() == L.Close(old(Abs()))
    {
      if Closed {
        return;
      }
      ResetLink();
      Exit := true;
      Closed := true;
    }

    /** A reader's loop is over: unless the client is closed, it goes on as a reconnect. */
    method EndReader(reader: nat)
      modifies this
      ensures Abs() == ReaderEnds(old(Abs()), reader)
    {
      readers := readers - {reader};
      if !Closed {
        reconnects := reconnects + 1;
      }
    }
  }
}
