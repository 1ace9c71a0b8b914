/** Loggers, the log buffer, and the current logger of an application. */
module Logging {
  import opened Events

  /** Where a logger writes: the default, the printer of fx.Logger, or what fx.WithLogger built. */
  datatype SinkName = Stderr | Printer(printer: nat) | Custom(ctor: nat)

  /** A user-visible fxevent.Logger, by the events delivered to it. */
  class Sink {
    const name: SinkName
    var events: seq<Event>

    constructor (name: SinkName)
      ensures this.name == name && events == []
    {
      this.name := name;
      events := [];
    }

    method LogEvent(e: Event)
      modifies this
      ensures events == old(events) + [e]
    {
      events := events + [e];
    }
  }

  /** Buffers events until it is connected to a logger, and passes them on from then on. */
  class LogBuffer {
    var events: seq<Event>
    var logger: Sink?

    constructor ()
      ensures events == [] && logger == null
    {
      events := [];
      logger := null;
    }

    method LogEvent(e: Event)
      modifies this, logger
      ensures logger == old(logger)
      ensures events == if logger == null then old(events) + [e] else old(events)
      ensures logger != null ==> logger.events == old(logger.events) + [e]
    {
      if logger == null {
        events := events + [e];
      } else {
        logger.LogEvent(e);
      }
    }

    /** Delivers everything buffered, in order and once, and keeps nothing. */
    method Connect(sink: Sink)
      modifies this, sink
      ensures logger == sink && events == []
      ensures sink.events == old(sink.events) + old(events)
    {
      logger := sink;
      var i := 0;
      while i < |events|
        invariant 0 <= i <= |events|
        invariant logger == sink && events == old(events)
        invariant sink.events == old(sink.events) + events[..i]
      {
        sink.LogEvent(events[i]);
        i := i + 1;
      }
      events := [];
    }
  }

  /** What App.log refers to. */
  datatype Destination = Direct(sink: Sink) | Buffered(buffer: LogBuffer)

  /**
   * The App.log variable. The lifecycle logs through it as well, so that its events always reach the
   * logger that is current at that moment.
   */
  class AppLogger {
    var log: Destination
    ghost var emitted: seq<Event>   // every event emitted so far
    ghost var Repr: set<object>

    /** Events delivered to the current logger, followed by those still buffered. */
    ghost function Accounted(): seq<Event>
      reads this, Repr
      requires log.Direct? ==> log.sink in Repr
      requires log.Buffered? ==> log.buffer in Repr && (log.buffer.logger != null ==> log.buffer.logger in Repr)
    {
      match log
      case Direct(sink) => sink.events
      case Buffered(buffer) => (if buffer.logger == null then [] else buffer.logger.events) + buffer.events
    }

    /** No emitted event is lost, duplicated or out of order, and a connected buffer holds nothing back. */
    ghost predicate Valid()
      reads this, Repr
    {
      && this in Repr
      && (log.Direct? ==> log.sink in Repr)
      && (log.Buffered? ==>
            && log.buffer in Repr
            && (log.buffer.logger != null ==> log.buffer.logger in Repr && log.buffer.events == []))
      && Accounted() == emitted
    }

    constructor (sink: Sink)
      requires sink.events == []
      ensures Valid() && log == Direct(sink) && emitted == [] && Repr == {this, sink}
    {
      log := Direct(sink);
      emitted := [];
      Repr := {this, sink};
    }

    method LogEvent(e: Event)
      requires Valid()
      modifies Repr
      ensures Valid() && Repr == old(Repr) && log == old(log)
      ensures log.Buffered? ==> log.buffer.logger == old(log.buffer.logger)
      ensures emitted == old(emitted) + [e]
      ensures
        match log
        case Direct(sink) => sink.events == emitted
        case Buffered(buffer) => (if buffer.logger == null then buffer.events else buffer.logger.events) == emitted
    {
      match log {
        case Direct(sink) => sink.LogEvent(e);
        case Buffered(buffer) => buffer.LogEvent(e);
      }
      emitted := emitted + [e];
    }

    /** Replaces the logger before anything was logged. */
    method Use(sink: Sink)
      requires this in Repr && emitted == [] && sink.events == []
      modifies this
      ensures Valid() && log == Direct(sink) && emitted == [] && Repr == {this, sink}
    {
      log := Direct(sink);
      Repr := {this, sink};
    }

    /** Starts buffering before anything was logged. */
    method Buffer() returns (buffer: LogBuffer)
      requires Valid() && emitted == []
      modifies this
      ensures Valid() && log == Buffered(buffer) && emitted == [] && Repr == {this, buffer}
      ensures fresh(buffer) && buffer.logger == null
    {
      buffer := new LogBuffer();
      log := Buffered(buffer);
      Repr := {this, buffer};
    }

    /** Hands over from the buffer to sink: everything emitted so far is delivered to sink, in order. */
    method HandOver(buffer: LogBuffer, sink: Sink)
      requires Valid() && log == Buffered(buffer) && buffer.logger == null && sink.events == []
      modifies this, buffer, sink
      ensures Valid() && log == Direct(sink) && emitted == old(emitted) && Repr == {this, sink}
      ensures sink.events == emitted && buffer.events == []
    {
      log := Direct(sink);
      buffer.Connect(sink);
      Repr := {this, sink};
    }
  }
}
