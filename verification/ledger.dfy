/**
  The game-economy ledger behind the HTTP handlers: the `usuarios` table as a
  map from id to account, the append-only logs `historico_jogos`,
  `respostas_usuarios` and `saques`, and the read-only question bank
  `perguntas`. Each handler is one atomic method.
*/
module Ledger {
  import opened Outcomes
  import opened Password
  import opened Scoring
  import opened Questions
  import opened Ranking

  /** Cost of a paid retry (`diamantes - 10`). */
  const RetryCost := 10

  /** A row of `usuarios`; `saldo` is in integer cents. The bcrypt hash is not kept. */
  datatype Account = Account(
    nome: string,
    email: string,
    celular: Option<string>,
    cpf: Option<string>,
    saldo: int,
    diamantes: int,
    vidas: int,
    xp: int,
    nivel: int)

  /** The body of a registration request; any field may be missing. */
  datatype Signup = Signup(
    nome: Option<string>,
    email: Option<string>,
    senha: Option<string>,
    celular: Option<string>,
    cpf: Option<string>)

  /** A row of `historico_jogos`. */
  datatype ScoreRow = ScoreRow(usuarioId: int, jogo: string, pontos: int)

  /** Withdrawals are created `em_analise`; approving or rejecting them happens elsewhere. */
  datatype WithdrawalStatus = EmAnalise

  /** A row of `saques`; `valor` is in integer cents. */
  datatype Withdrawal = Withdrawal(usuarioId: int, valor: int, chavePix: string, status: WithdrawalStatus)

  /** JavaScript truthiness of a string field: undefined, null and "" are all falsy. */
  predicate Truthy(field: Option<string>)
  {
    field.Some? && field.value != ""
  }

  predicate HasRequired(req: Signup)
  {
    Truthy(req.nome) && Truthy(req.email) && Truthy(req.senha)
  }

  /**
    `email = $1 OR cpf = $2 OR celular = $3` for one row. A missing cpf or
    celular is bound as NULL, and a comparison with NULL is never true.
  */
  predicate Clashes(a: Account, email: string, cpf: Option<string>, celular: Option<string>)
  {
    a.email == email || (cpf.Some? && a.cpf == cpf) || (celular.Some? && a.celular == celular)
  }

  function EntryOf(a: Account): RankEntry
  {
    RankEntry(a.nome, a.xp, a.nivel, a.diamantes)
  }

  class Ledger {
    /** `usuarios`, keyed by its SERIAL id. */
    var accounts: map<int, Account>
    /** The ids of `usuarios` in table order. */
    var ids: seq<int>
    /** The next value of the id sequence. */
    var nextId: int
    /** `historico_jogos`. */
    var history: seq<ScoreRow>
    /** `respostas_usuarios`. */
    var answers: seq<Answer>
    /** `saques`. */
    var withdrawals: seq<Withdrawal>
    /** `perguntas`; no handler of the ledger writes it. */
    const bank: seq<Question>

    ghost predicate Valid()
      reads this
    {
      && DistinctIds(bank)
      && |ids| == |accounts|
      && (forall i :: 0 <= i < |ids| ==> ids[i] in accounts)
      && (forall id :: id in accounts ==> id in ids)
      && (forall i, j :: 0 <= i < j < |ids| ==> ids[i] != ids[j])
      && 0 < nextId
      && (forall id :: id in accounts ==> 0 < id < nextId)
      // No handler lets the cash balance go below zero.
      && (forall id :: id in accounts ==> accounts[id].saldo >= 0)
    }

    constructor (bank: seq<Question>)
      requires DistinctIds(bank)
      ensures Valid()
      ensures this.bank == bank
      ensures accounts == map[] && ids == [] && nextId == 1
      ensures history == [] && answers == [] && withdrawals == []
    {
      this.bank := bank;
      accounts, ids, nextId := map[], [], 1;
      history, answers, withdrawals := [], [], [];
    }

    /** The eligible questions of one user in one category, in table order. */
    function Pool(usuarioId: int, categoria: string): seq<Question>
      reads this
    {
      Eligible(bank, categoria, AnsweredBy(answers, usuarioId))
    }

    /** The ranking table: one entry per account, in table order. */
    function Table(): (t: seq<RankEntry>)
      reads this
      requires Valid()
      ensures |t| == |ids| == |accounts|
      ensures forall i :: 0 <= i < |ids| ==> t[i] == EntryOf(accounts[ids[i]])
      ensures forall id :: id in accounts ==> EntryOf(accounts[id]) in t
      ensures forall e :: e in t ==> exists id :: id in accounts && e == EntryOf(accounts[id])
    {
      var rows, users := ids, accounts;
      var t := seq(|rows|, i requires 0 <= i < |rows| && rows[i] in users => EntryOf(users[rows[i]]));
      assert forall id :: id in accounts ==> EntryOf(accounts[id]) in t by {
        forall id | id in accounts ensures EntryOf(accounts[id]) in t {
          var i :| 0 <= i < |ids| && ids[i] == id;
          assert t[i] == EntryOf(accounts[id]);
        }
      }
      assert forall e :: e in t ==> exists id :: id in accounts && e == EntryOf(accounts[id]) by {
        forall e | e in t ensures exists id :: id in accounts && e == EntryOf(accounts[id]) {
          var i :| 0 <= i < |t| && t[i] == e;
          assert ids[i] in accounts && e == EntryOf(accounts[ids[i]]);
        }
      }
      t
    }

    /** POST /usuarios. */
    method Register(req: Signup) returns (r: Result<int>)
      requires Valid()
      modifies this
      ensures Valid()
      ensures r == Err(MissingFields) <==> !HasRequired(req)
      ensures r == Err(WeakPassword) <==> HasRequired(req) && !Accepts(req.senha.value)
      ensures r == Err(AlreadyRegistered) <==>
        && HasRequired(req) && Accepts(req.senha.value)
        && exists id :: id in old(accounts) && Clashes(old(accounts)[id], req.email.value, req.cpf, req.celular)
      ensures r.Ok? <==>
        && HasRequired(req) && Accepts(req.senha.value)
        && !exists id :: id in old(accounts) && Clashes(old(accounts)[id], req.email.value, req.cpf, req.celular)
      ensures r.Err? ==> accounts == old(accounts) && ids == old(ids) && nextId == old(nextId)
      ensures r.Ok? ==>
        && r.value == old(nextId) && r.value !in old(accounts)
        && accounts == old(accounts)[r.value := Account(req.nome.value, req.email.value, req.celular, req.cpf,
                                                          0, 0, 5, 0, 1)]
        && ids == old(ids) + [r.value]
        && nextId == old(nextId) + 1
      ensures history == old(history) && answers == old(answers) && withdrawals == old(withdrawals)
    {
      if !HasRequired(req) {
        return Err(MissingFields);
      }
      if !Accepts(req.senha.value) {
        return Err(WeakPassword);
      }
      var email := req.email.value;
      if exists id | id in accounts :: Clashes(accounts[id], email, req.cpf, req.celular) {
        return Err(AlreadyRegistered);
      }
      var id := nextId;
      // saldo 0, diamantes 0, vidas 5, xp 0, nivel 1
      accounts := accounts[id := Account(req.nome.value, email, req.celular, req.cpf, 0, 0, 5, 0, 1)];
      ids := ids + [id];
      nextId := nextId + 1;
      r := Ok(id);
    }

    /**
      POST /pontuacao. The history row is written whether or not the user
      exists; the balance update then touches no row for an unknown id.
    */
    method SubmitScore(usuarioId: int, jogo: string, pontos: Parsed) returns (r: Result<()>)
      requires Valid()
      modifies this
      ensures Valid()
      ensures r == Ok(())
      ensures history == old(history) + [ScoreRow(usuarioId, jogo, PointsOrZero(pontos))]
      ensures usuarioId in old(accounts) ==>
        var a := old(accounts)[usuarioId];
        var p := PointsOrZero(pontos);
        accounts == old(accounts)[usuarioId := a.(diamantes := a.diamantes + DiamondReward(p), xp := a.xp + p)]
      ensures usuarioId !in old(accounts) ==> accounts == old(accounts)
      ensures ids == old(ids) && nextId == old(nextId)
      ensures answers == old(answers) && withdrawals == old(withdrawals)
    {
      var pontosNum := PointsOrZero(pontos);
      var ganhos := DiamondReward(pontosNum);
      history := history + [ScoreRow(usuarioId, jogo, pontosNum)];
      if usuarioId in accounts {
        var a := accounts[usuarioId];
        accounts := accounts[usuarioId := a.(diamantes := a.diamantes + ganhos, xp := a.xp + pontosNum)];
      }
      r := Ok(());
    }

    /**
      `ORDER BY RANDOM()` puts the n eligible rows in some order: `order` lists
      their positions in the pool, each exactly once.
    */
    ghost predicate IsShuffle(order: seq<nat>, poolSize: nat)
    {
      && |order| == poolSize
      && (forall k :: 0 <= k < |order| ==> order[k] < poolSize)
      && (forall k, l :: 0 <= k < l < |order| ==> order[k] != order[l])
    }

    /**
      GET /perguntas/:usuario_id/:categoria: the first `LIMIT 10` rows of the
      shuffled pool, or AllAnswered when no row is left.
    */
    method FetchQuestions(usuarioId: int, categoria: string, order: seq<nat>) returns (r: Result<seq<Question>>)
      requires Valid()
      requires IsShuffle(order, |Pool(usuarioId, categoria)|)
      ensures r.Err? <==> Pool(usuarioId, categoria) == []
      ensures r.Err? ==> r.error == AllAnswered
      ensures r.Ok? ==> |r.value| == Min(BatchSize, |Pool(usuarioId, categoria)|)
      ensures r.Ok? ==> DistinctIds(r.value)
      ensures r.Ok? ==> forall q :: q in r.value ==> q in bank && q.categoria == categoria
      ensures r.Ok? ==> forall q, a :: q in r.value && a in answers && a.usuarioId == usuarioId ==> q.id != a.perguntaId
    {
      var pool := Pool(usuarioId, categoria);
      var n := Min(BatchSize, |pool|);
      var rows := seq(n, k requires 0 <= k < n && k < |order| && order[k] < |pool| => pool[order[k]]);
      forall k, l | 0 <= k < l < |rows| ensures rows[k].id != rows[l].id {
        assert rows[k] == pool[order[k]] && rows[l] == pool[order[l]];
      }
      forall q | q in rows ensures q in pool {
        var k :| 0 <= k < |rows| && rows[k] == q;
        assert q == pool[order[k]];
      }
      forall q, a | q in rows && a in answers && a.usuarioId == usuarioId ensures q.id != a.perguntaId {
        assert a.perguntaId in AnsweredBy(answers, usuarioId);
      }
      if |rows| == 0 {
        r := Err(AllAnswered);
      } else {
        r := Ok(rows);
      }
    }

    /** POST /registrar-resposta: no duplicate check, the log only grows. */
    method RegisterAnswer(usuarioId: int, perguntaId: int, acertou: bool) returns (r: Result<()>)
      requires Valid()
      modifies this
      ensures Valid()
      ensures r == Ok(())
      ensures answers == old(answers) + [Answer(usuarioId, perguntaId, acertou)]
      ensures accounts == old(accounts) && ids == old(ids) && nextId == old(nextId)
      ensures history == old(history) && withdrawals == old(withdrawals)
    {
      answers := answers + [Answer(usuarioId, perguntaId, acertou)];
      r := Ok(());
    }

    /** POST /quiz/repetir: a checked debit of ten diamonds. */
    method PaidRetry(usuarioId: int) returns (r: Result<()>)
      requires Valid()
      modifies this
      ensures Valid()
      ensures r == Err(UserNotFound) <==> usuarioId !in old(accounts)
      ensures r == Err(InsufficientDiamonds) <==>
        usuarioId in old(accounts) && old(accounts)[usuarioId].diamantes < RetryCost
      ensures r.Ok? <==> usuarioId in old(accounts) && old(accounts)[usuarioId].diamantes >= RetryCost
      ensures r.Err? ==> accounts == old(accounts)
      ensures r.Ok? ==>
        && usuarioId in old(accounts)
        && var a := old(accounts)[usuarioId];
           accounts == old(accounts)[usuarioId := a.(diamantes := a.diamantes - RetryCost)]
      ensures r.Ok? ==> accounts[usuarioId].diamantes >= 0
      ensures ids == old(ids) && nextId == old(nextId)
      ensures history == old(history) && answers == old(answers) && withdrawals == old(withdrawals)
    {
      if usuarioId !in accounts {
        return Err(UserNotFound);
      }
      var a := accounts[usuarioId];
      if a.diamantes < RetryCost {
        return Err(InsufficientDiamonds);
      }
      accounts := accounts[usuarioId := a.(diamantes := a.diamantes - RetryCost)];
      r := Ok(());
    }

    /**
      POST /sacar. An unknown id makes `rows[0].saldo` throw, which lands in
      the catch block. There is no check that `valor` is positive.
    */
    method Withdraw(usuarioId: int, valor: int, chavePix: string) returns (r: Result<()>)
      requires Valid()
      modifies this
      ensures Valid()
      ensures r == Err(ServerError) <==> usuarioId !in old(accounts)
      ensures r == Err(InsufficientBalance) <==>
        usuarioId in old(accounts) && old(accounts)[usuarioId].saldo < valor
      ensures r.Ok? <==> usuarioId in old(accounts) && old(accounts)[usuarioId].saldo >= valor
      ensures r.Err? ==> accounts == old(accounts) && withdrawals == old(withdrawals)
      ensures r.Ok? ==>
        && usuarioId in old(accounts)
        && var a := old(accounts)[usuarioId];
           accounts == old(accounts)[usuarioId := a.(saldo := a.saldo - valor)]
      ensures r.Ok? ==> withdrawals == old(withdrawals) + [Withdrawal(usuarioId, valor, chavePix, EmAnalise)]
      ensures ids == old(ids) && nextId == old(nextId)
      ensures history == old(history) && answers == old(answers)
    {
      if usuarioId !in accounts {
        return Err(ServerError);
      }
      var a := accounts[usuarioId];
      if a.saldo < valor {
        return Err(InsufficientBalance);
      }
      accounts := accounts[usuarioId := a.(saldo := a.saldo - valor)];
      withdrawals := withdrawals + [Withdrawal(usuarioId, valor, chavePix, EmAnalise)];
      r := Ok(());
    }

    /** GET /ranking. */
    method Leaderboard() returns (top: seq<RankEntry>)
      requires Valid()
      ensures |top| == Min(RankingSize, |accounts|)
      ensures SortedByXpDesc(top)
      ensures multiset(top) <= multiset(Table())
      ensures forall e :: e in multiset(Table()) - multiset(top) ==> forall t :: t in top ==> e.xp <= t.xp
      ensures forall e :: e in top ==> exists id :: id in accounts && e == EntryOf(accounts[id])
      ensures forall id :: id in accounts && EntryOf(accounts[id]) !in top ==>
        forall t :: t in top ==> accounts[id].xp <= t.xp
    {
      var table := Table();
      top := Top(table);
      assert forall e :: e in top ==> e in table by {
        forall e | e in top ensures e in table {
          assert e in multiset(top);
        }
      }
    }
  }
}
