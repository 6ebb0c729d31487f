/** A small-state account of what a successful program does to its message, and the
    proof that the mail store agrees with it. */
module Sketches {
  import opened MailStore
  import opened Types
  import opened Commands

  /** One arrival of the message in another mailbox, with the flags it carries there. */
  datatype Filing = Filing(target: string, flags: set<string>)

  /** Whether the message is still in the source, its flags there, and its filings so far. */
  datatype Sketch = Sketch(present: bool, flags: set<string>, filed: seq<Filing>)

  function Sketched(sk: Sketch, c: Command): Sketch {
    if !sk.present then sk
    else
      match c
      case Store(op, flags) => sk.(flags := NewFlags(op, sk.flags, flags))
      case Copy(t) => sk.(filed := sk.filed + [Filing(t, sk.flags)])
      case Move(t) => sk.(present := false, filed := sk.filed + [Filing(t, sk.flags)])
      case Expunge => sk.(present := DELETED !in sk.flags)
      case _ => sk
  }

  function SketchAll(sk: Sketch, cmds: seq<Command>): Sketch
    decreases |cmds|
  {
    if cmds == [] then sk else SketchAll(Sketched(sk, cmds[0]), cmds[1..])
  }

  /** The flags of the filings into `t`, in order of arrival. */
  function FiledIn(filed: seq<Filing>, t: string): seq<set<string>> {
    if filed == [] then []
    else (if filed[0].target == t then [filed[0].flags] else []) + FiledIn(filed[1..], t)
  }

  // ---------- agreement of store and sketch ----------

  /** `b` is `a` with exactly these arrivals of the message after its old messages. */
  ghost predicate Arrived(a: Mailbox, b: Mailbox, content: Content, flags: seq<set<string>>) {
    && b.uidnext == a.uidnext + |flags|
    && (forall u | u in a.messages :: u in b.messages && b.messages[u] == a.messages[u])
    && (forall u | u in b.messages :: u in a.messages || a.uidnext <= u < b.uidnext)
    && (forall u | a.uidnext <= u < b.uidnext ::
          u in b.messages && b.messages[u].content == content && b.messages[u].flags == flags[u - a.uidnext])
  }

  /** `b` is `a` but for the message `uid`, which is as the sketch says. */
  ghost predicate SourceAgrees(a: Mailbox, b: Mailbox, uid: Uid, content: Content, sk: Sketch) {
    && b.uidnext == a.uidnext
    && (uid in b.messages <==> sk.present)
    && (sk.present ==> b.messages[uid].content == content && b.messages[uid].flags == sk.flags)
    && (forall u | u != uid :: u in b.messages <==> u in a.messages)
    && (forall u | u != uid && u in a.messages :: b.messages[u] == a.messages[u])
  }

  ghost predicate Agrees(s0: Server, s: Server, subj: Subject, content: Content, sk: Sketch) {
    && subj.mailbox in s0 && subj.mailbox in s
    && WellFormedServer(s0) && WellFormedServer(s)
    && SourceAgrees(s0[subj.mailbox], s[subj.mailbox], subj.uid, content, sk)
    && (forall t | t != subj.mailbox :: Arrived(Box(s0, t), Box(s, t), content, FiledIn(sk.filed, t)))
  }

  predicate FilesElsewhere(cmds: seq<Command>, mailbox: string) {
    forall i :: 0 <= i < |cmds| ==> (cmds[i].Copy? || cmds[i].Move? ==> cmds[i].target != mailbox)
  }

  lemma {:induction false} FiledInConcat(a: seq<Filing>, b: seq<Filing>, t: string)
    ensures FiledIn(a + b, t) == FiledIn(a, t) + FiledIn(b, t)
  {
    if a == [] {
      assert a + b == b;
    } else {
      assert (a + b)[0] == a[0] && (a + b)[1..] == a[1..] + b;
      FiledInConcat(a[1..], b, t);
    }
  }

  lemma FiledInAppend(a: seq<Filing>, f: Filing, t: string)
    ensures FiledIn(a + [f], t) == if f.target == t then FiledIn(a, t) + [f.flags] else FiledIn(a, t)
  {
    FiledInConcat(a, [f], t);
    assert [f][1..] == [];
  }

  lemma AppendArrives(a: Mailbox, b: Mailbox, content: Content, fs: seq<set<string>>, flags: set<string>)
    requires WellFormed(a) && WellFormed(b) && Arrived(a, b, content, fs)
    ensures Arrived(a, Append(b, content, flags), content, fs + [flags])
  {
    var b' := Append(b, content, flags);
    forall u | a.uidnext <= u < b'.uidnext
      ensures u in b'.messages && b'.messages[u].content == content &&
              b'.messages[u].flags == (fs + [flags])[u - a.uidnext]
    {
      if u < b.uidnext { assert u in b.messages; }
    }
  }

  /** The case of a filing command that is carried out on a present message. */
  lemma CopyAgrees(s0: Server, s: Server, subj: Subject, content: Content, sk: Sketch, t: string)
    requires Agrees(s0, s, subj, content, sk) && sk.present && t != subj.mailbox
    requires CopyTo(s, subj.mailbox, subj.uid, t).Some?
    ensures Agrees(s0, CopyTo(s, subj.mailbox, subj.uid, t).value, subj, content, Sketched(sk, Copy(t)))
  {
    var s' := CopyTo(s, subj.mailbox, subj.uid, t).value;
    var f := Filing(t, sk.flags);
    CopyEvolves(s, subj.mailbox, subj.uid, t);
    assert s' == s[t := Append(s[t], content, sk.flags)];
    forall x | x != subj.mailbox
      ensures Arrived(Box(s0, x), Box(s', x), content, FiledIn(sk.filed + [f], x))
    {
      FiledInAppend(sk.filed, f, x);
      assert Arrived(Box(s0, x), Box(s, x), content, FiledIn(sk.filed, x));
      if x == t { AppendArrives(Box(s0, t), s[t], content, FiledIn(sk.filed, t), sk.flags); }
    }
  }

  lemma SourceUpdateAgrees(s0: Server, s: Server, mb: Mailbox, subj: Subject, content: Content, sk: Sketch, sk': Sketch)
    requires Agrees(s0, s, subj, content, sk) && sk'.filed == sk.filed && WellFormed(mb)
    requires SourceAgrees(s0[subj.mailbox], mb, subj.uid, content, sk')
    ensures Agrees(s0, s[subj.mailbox := mb], subj, content, sk')
  {
    var s' := s[subj.mailbox := mb];
    forall t | t != subj.mailbox
      ensures Arrived(Box(s0, t), Box(s', t), content, FiledIn(sk'.filed, t))
    {
      assert Arrived(Box(s0, t), Box(s, t), content, FiledIn(sk.filed, t));
      assert Box(s', t) == Box(s, t);
    }
  }

  lemma DropAgrees(s0: Server, s: Server, subj: Subject, content: Content, sk: Sketch)
    requires Agrees(s0, s, subj, content, sk)
    ensures Agrees(s0, s[subj.mailbox := Drop(s[subj.mailbox], subj.uid)], subj, content, sk.(present := false))
  {
    DropEvolves(s[subj.mailbox], subj.uid);
    SourceUpdateAgrees(s0, s, Drop(s[subj.mailbox], subj.uid), subj, content, sk, sk.(present := false));
  }

  lemma CreateAgrees(s0: Server, s: Server, subj: Subject, content: Content, sk: Sketch, b: string)
    requires Agrees(s0, s, subj, content, sk) && b !in s
    ensures Agrees(s0, s[b := EMPTY_MAILBOX], subj, content, sk)
  {
    var s' := s[b := EMPTY_MAILBOX];
    forall t | t != subj.mailbox
      ensures Arrived(Box(s0, t), Box(s', t), content, FiledIn(sk.filed, t))
    {
      assert Arrived(Box(s0, t), Box(s, t), content, FiledIn(sk.filed, t));
      assert Box(s', t) == Box(s, t);
    }
  }

  /** A command that is carried out keeps store and sketch in agreement. */
  lemma EffectAgrees(s0: Server, s: Server, sent: seq<OutgoingMail>, subj: Subject, c: Command, content: Content,
                     sk: Sketch)
    requires Agrees(s0, s, subj, content, sk) && FilesElsewhere([c], subj.mailbox)
    requires Effect(s, sent, subj, c).Some?
    ensures Agrees(s0, Effect(s, sent, subj, c).value.0, subj, content, Sketched(sk, c))
  {
    assert [c][0] == c;
    var b, uid := subj.mailbox, subj.uid;
    match c
    case Store(op, flags) =>
      StoreFlagsEvolves(s[b], uid, op, flags);
      SourceUpdateAgrees(s0, s, StoreFlags(s[b], uid, op, flags), subj, content, sk, Sketched(sk, c));
    case Create(x) => CreateAgrees(s0, s, subj, content, sk, x);
    case Copy(t) =>
      if sk.present { CopyAgrees(s0, s, subj, content, sk, t); }
    case Move(t) =>
      var s1 := CopyTo(s, b, uid, t).value;
      if sk.present {
        CopyAgrees(s0, s, subj, content, sk, t);
        DropAgrees(s0, s1, subj, content, Sketched(sk, Copy(t)));
      } else {
        DropAgrees(s0, s1, subj, content, sk);
      }
    case Expunge =>
      if sk.present && DELETED in sk.flags {
        DropAgrees(s0, s, subj, content, sk);
      } else {
        SourceUpdateAgrees(s0, s, s[b], subj, content, sk, sk);
        assert s[b := s[b]] == s;
      }
    case Send(_) =>
    case Abort(_) =>
  }

  /** A program that answers OK leaves the store as its sketch says: in the source, in
      every other mailbox, and for every other message. */
  lemma {:induction false} RunAgrees(s0: Server, w: World, subj: Subject, cmds: seq<Command>, content: Content,
                                     sk: Sketch)
    requires Agrees(s0, w.server, subj, content, sk) && FilesElsewhere(cmds, subj.mailbox)
    requires Run(w, subj, cmds).1.Pass?
    ensures Agrees(s0, Run(w, subj, cmds).0.server, subj, content, SketchAll(sk, cmds))
    decreases |cmds|
  {
    if cmds != [] {
      var c := cmds[0];
      var w1 := Issue(w, subj, c).0;
      assert FilesElsewhere([c], subj.mailbox);
      if Effect(w.server, w.sent, subj, c).Some? {
        EffectAgrees(s0, w.server, w.sent, subj, c, content, sk);
      }
      RunAgrees(s0, w1, subj, cmds[1..], content, Sketched(sk, c));
    }
  }

  lemma {:induction false} SketchConcat(sk: Sketch, a: seq<Command>, b: seq<Command>)
    ensures SketchAll(sk, a + b) == SketchAll(SketchAll(sk, a), b)
    decreases |a|
  {
    if a == [] {
      assert a + b == b;
    } else {
      assert (a + b)[0] == a[0] && (a + b)[1..] == a[1..] + b;
      SketchConcat(Sketched(sk, a[0]), a[1..], b);
    }
  }

  lemma AgreesInitially(s: Server, subj: Subject)
    requires WellFormedServer(s) && subj.mailbox in s && subj.uid in s[subj.mailbox].messages
    ensures var m := s[subj.mailbox].messages[subj.uid];
            Agrees(s, s, subj, m.content, Sketch(true, m.flags, []))
  {
    var m := s[subj.mailbox].messages[subj.uid];
    forall t | t != subj.mailbox ensures Arrived(Box(s, t), Box(s, t), m.content, FiledIn([], t)) {
      assert WellFormed(Box(s, t));
    }
  }
}
