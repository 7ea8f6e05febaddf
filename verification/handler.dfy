/** Websocket frames on their way into the cache. */
module Handler {
  import opened Wrappers
  import opened Candles
  import opened Symbols
  import opened Store

  datatype Push = Push(symbol: string, interval: string, candle: Candle)

  /** A frame off the wire; decoding is where malformed payloads are lost. */
  datatype Frame = Malformed | Frame(channel: string, push: Option<Push>)

  const PUSH_KLINE := "push.kline"

  /** A frame reaches the cache only as a well-formed push for a pair the cache already knows. */
  predicate Accepted(st: StoreState, frame: Frame) {
    && frame.Frame? && frame.channel == PUSH_KLINE && frame.push.Some?
    && frame.push.value.symbol != "" && frame.push.value.interval != ""
    && KeyFor(frame.push.value.symbol, frame.push.value.interval) in st
  }

  function Handled(st: StoreState, frame: Frame): StoreState {
    if Accepted(st, frame)
    then UpsertState(st, frame.push.value.symbol, frame.push.value.interval, frame.push.value.candle)
    else st
  }

  method HandleMessage(store: CandleStore, frame: Frame)
    requires store.Valid()
    modifies store
    ensures store.Valid() && fresh(store.Lists - old(store.Lists))
    ensures store.Contents == Handled(old(store.Contents), frame)
    ensures store.issued == old(store.issued) +
                            if store.mirrored && Accepted(old(store.Contents), frame)
                            then var p := frame.push.value; [MirrorTask(p.symbol, p.interval, p.candle)]
                            else []
  {
    if frame.Malformed? {
      return;
    }
    if frame.channel == PUSH_KLINE {
      HandlePushKline(store, frame.push);
    }
  }

  method HandlePushKline(store: CandleStore, push: Option<Push>)
    requires store.Valid()
    modifies store
    ensures store.Valid() && fresh(store.Lists - old(store.Lists))
    ensures store.Contents == Handled(old(store.Contents), Frame(PUSH_KLINE, push))
    ensures store.issued == old(store.issued) +
                            if store.mirrored && Accepted(old(store.Contents), Frame(PUSH_KLINE, push))
                            then var p := push.value; [MirrorTask(p.symbol, p.interval, p.candle)]
                            else []
  {
    if push.None? {
      return;
    }
    var p := push.value;
    if p.symbol == "" || p.interval == "" {
      return;
    }
    var known := store.Has(p.symbol, p.interval);
    if !known {
      return;
    }
    store.Upsert(p.symbol, p.interval, p.candle);
  }

  /** A frame changes the cache only as a well-formed push with both names for a key the cache has, and
      then exactly as that push's upsert does. */
  lemma {:induction false} OnlyKnownPushesCount(st: StoreState, frame: Frame)
    ensures Accepted(st, frame)
            <==> frame.Frame? && frame.channel == "push.kline" && frame.push.Some?
                 && var p := frame.push.value; p.symbol != "" && p.interval != "" && p.symbol + ":" + p.interval in st
    ensures Accepted(st, frame) ==>
              var p := frame.push.value; Handled(st, frame) == UpsertState(st, p.symbol, p.interval, p.candle)
    ensures !Accepted(st, frame) ==> Handled(st, frame) == st
  {
    hide UpsertState;
  }

  /** No frame, whatever it carries, adds or removes a key. */
  lemma {:induction false} HandlingKeepsKeys(st: StoreState, frame: Frame)
    ensures Handled(st, frame).Keys == st.Keys
  {
    if Accepted(st, frame) {
      assert KeyFor(frame.push.value.symbol, frame.push.value.interval) in st.Keys;
    }
  }
}
