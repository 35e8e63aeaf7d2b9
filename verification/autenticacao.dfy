/** Login with a per-email failure counter and a temporary lock, role-based
    permissions, and password change. The user list, the password table and
    the counters are one state record; the current instant is a parameter. */
module Autenticacao {

  import opened Wrappers
  import opened Seqs
  import opened Numeros
  import opened Texto
  import opened Tipos

  datatype Perfil = Admin | Vendedor

  datatype Usuario = Usuario(
    id: string,
    nome: string,
    email: string,
    perfil: Perfil,
    ativo: bool,
    criado_em: Instante,
    ultimo_login_em: Option<Instante>)

  /** Failed attempts for one email and the instant of the last one. */
  datatype Tentativas = Tentativas(count: nat, ultimaTentativa: Instante)

  /** Users, the password stored per email, and the failure counters. */
  datatype Autenticacao = Autenticacao(
    usuarios: seq<Usuario>,
    senhas: map<string, string>,
    tentativas: map<string, Tentativas>)

  /** Failures that lock an email. */
  const MaxTentativas: nat := 5

  /** How long a lock lasts: 15 minutes, in milliseconds. */
  const TempoEspera: int := 15 * 60 * 1000

  const ErroCredenciais: string := "Email ou senha incorretos"

  /** Milliseconds left of the lock that started with the last failure. */
  function TempoRestante(t: Tentativas, agora: Instante): int {
    t.ultimaTentativa + TempoEspera - agora
  }

  /** The email has reached the failure limit and its lock has not run out. */
  predicate Bloqueado(st: Autenticacao, email: string, agora: Instante) {
    email in st.tentativas && st.tentativas[email].count >= MaxTentativas &&
    TempoRestante(st.tentativas[email], agora) > 0
  }

  /** `Math.ceil(ms / 60000)`: whole minutes, rounded up, covering `ms`. */
  function MinutosRestantes(ms: int): (m: int)
    requires ms > 0
    ensures m >= 1
    ensures m * 60000 >= ms && (m - 1) * 60000 < ms
  {
    var m := Ceil(ms as real / 60000.0);
    assert m as real >= ms as real / 60000.0;
    assert (m - 1) as real < ms as real / 60000.0;
    m
  }

  function MensagemBloqueio(minutos: int): string {
    "Muitas tentativas. Tente novamente em " + IntParaTexto(minutos) + " minutos."
  }

  /** The failures that still count: a lock that ran out is forgotten. */
  function ContagemVigente(st: Autenticacao, email: string): nat {
    if email in st.tentativas && st.tentativas[email].count < MaxTentativas then st.tentativas[email].count else 0
  }

  /** One more failure, at `agora`, on top of the counter (0 when absent). */
  function RegistrarFalha(tentativas: map<string, Tentativas>, email: string, agora: Instante): map<string, Tentativas> {
    var atual := if email in tentativas then tentativas[email] else Tentativas(0, agora);
    tentativas[email := Tentativas(atual.count + 1, agora)]
  }

  predicate UsuarioAtivoCom(email: string, u: Usuario) {
    u.email == email && u.ativo
  }

  function UsuarioComEmail(email: string): Usuario -> bool {
    (u: Usuario) => UsuarioAtivoCom(email, u)
  }

  predicate SenhaConfere(st: Autenticacao, email: string, senha: string) {
    email in st.senhas && st.senhas[email] == senha
  }

  /** Login. A locked email is refused with the minutes left, whatever the
      password, and nothing changes. Otherwise an expired lock is dropped, and
      an unknown or inactive email or a wrong password counts one failure
      and gets the same generic error. Success clears the counter and stamps
      the user's last login. */
  function AutenticarUsuario(st: Autenticacao, email: string, senha: string, agora: Instante)
    : (r: (Autenticacao, Result<Usuario, string>))
    ensures r.1.Success? <==>
      !Bloqueado(st, email, agora) && SenhaConfere(st, email, senha) &&
      exists j :: 0 <= j < |st.usuarios| && UsuarioAtivoCom(email, st.usuarios[j])
    ensures Bloqueado(st, email, agora) ==>
      r.0 == st &&
      r.1 == Failure(MensagemBloqueio(MinutosRestantes(TempoRestante(st.tentativas[email], agora))))
    ensures !Bloqueado(st, email, agora) && r.1.Failure? ==>
      r.1.error == ErroCredenciais && r.0.usuarios == st.usuarios && r.0.senhas == st.senhas &&
      r.0.tentativas == st.tentativas[email := Tentativas(ContagemVigente(st, email) + 1, agora)]
    ensures r.1.Success? ==>
      r.0.tentativas == st.tentativas - {email} && r.0.senhas == st.senhas &&
      UsuarioAtivoCom(email, r.1.value) && r.1.value.ultimo_login_em == Some(agora) &&
      |r.0.usuarios| == |st.usuarios| &&
      exists k :: 0 <= k < |st.usuarios| &&
        UsuarioAtivoCom(email, st.usuarios[k]) &&
        (forall j :: 0 <= j < k ==> !UsuarioAtivoCom(email, st.usuarios[j])) &&
        r.0.usuarios == st.usuarios[k := r.1.value] && r.1.value == st.usuarios[k].(ultimo_login_em := Some(agora))
  {
    if Bloqueado(st, email, agora) then
      (st, Failure(MensagemBloqueio(MinutosRestantes(TempoRestante(st.tentativas[email], agora)))))
    else
      var tentativas :=
        if email in st.tentativas && st.tentativas[email].count >= MaxTentativas then st.tentativas - {email}
        else st.tentativas;
      assert RegistrarFalha(tentativas, email, agora) ==
             st.tentativas[email := Tentativas(ContagemVigente(st, email) + 1, agora)];
      match FirstIndex(st.usuarios, UsuarioComEmail(email))
      case None =>
        (st.(tentativas := RegistrarFalha(tentativas, email, agora)), Failure(ErroCredenciais))
      case Some(k) =>
        if !SenhaConfere(st, email, senha) then
          (st.(tentativas := RegistrarFalha(tentativas, email, agora)), Failure(ErroCredenciais))
        else
          var u := st.usuarios[k].(ultimo_login_em := Some(agora));
          assert tentativas - {email} == st.tentativas - {email};
          (st.(usuarios := st.usuarios[k := u], tentativas := tentativas - {email}), Success(u))
  }

  /** The fifth failure in a row locks the email: any attempt in the next
      fifteen minutes is refused, even with the right password, and changes
      nothing. */
  lemma QuintaFalhaBloqueia(st: Autenticacao, email: string, senha: string, agora: Instante, senha2: string, depois: Instante)
    requires ContagemVigente(st, email) == MaxTentativas - 1
    requires AutenticarUsuario(st, email, senha, agora).1.Failure?
    requires !Bloqueado(st, email, agora)
    requires agora <= depois < agora + TempoEspera
    ensures var st1 := AutenticarUsuario(st, email, senha, agora).0;
      Bloqueado(st1, email, depois) &&
      AutenticarUsuario(st1, email, senha2, depois) ==
        (st1, Failure(MensagemBloqueio(MinutosRestantes(agora + TempoEspera - depois))))
  {
    var st1 := AutenticarUsuario(st, email, senha, agora).0;
    assert st1.tentativas[email] == Tentativas(MaxTentativas, agora);
  }

  /** Once the lock has run out, the attempt is judged as if the email had
      never failed. */
  lemma JanelaExpiradaReinicia(st: Autenticacao, email: string, senha: string, agora: Instante)
    requires email in st.tentativas && st.tentativas[email].count >= MaxTentativas
    requires TempoRestante(st.tentativas[email], agora) <= 0
    ensures AutenticarUsuario(st, email, senha, agora) ==
            AutenticarUsuario(st.(tentativas := st.tentativas - {email}), email, senha, agora)
  {
    var limpo := st.(tentativas := st.tentativas - {email});
    assert !Bloqueado(limpo, email, agora);
    assert ContagemVigente(limpo, email) == 0 == ContagemVigente(st, email);
    assert limpo.tentativas[email := Tentativas(1, agora)] == st.tentativas[email := Tentativas(1, agora)];
    assert limpo.tentativas - {email} == st.tentativas - {email};
  }

  /** Each failure below the limit adds exactly one to the counter, so the
      lock comes on the fifth failure and not before. */
  lemma FalhaConta(st: Autenticacao, email: string, senha: string, agora: Instante)
    requires !Bloqueado(st, email, agora)
    requires AutenticarUsuario(st, email, senha, agora).1.Failure?
    ensures var st1 := AutenticarUsuario(st, email, senha, agora).0;
      st1.tentativas[email].count == ContagemVigente(st, email) + 1 &&
      (Bloqueado(st1, email, agora) <==> ContagemVigente(st, email) + 1 >= MaxTentativas)
  {
  }

  // ----- Permissions -----

  datatype Acao = VerCatalogo | EditarCatalogo | VerEstoque | EditarEstoque

  /** Inactive users may do nothing; everyone active may look; only admins
      may edit. */
  function TemPermissao(u: Usuario, acao: Acao): (r: bool)
    ensures !u.ativo ==> !r
    ensures u.ativo && (acao == VerCatalogo || acao == VerEstoque) ==> r
    ensures u.ativo && (acao == EditarCatalogo || acao == EditarEstoque) ==> (r <==> u.perfil == Admin)
  {
    if !u.ativo then false
    else
      match acao
      case VerCatalogo => true
      case VerEstoque => true
      case EditarCatalogo => u.perfil == Admin
      case EditarEstoque => u.perfil == Admin
  }

  /** Whatever a seller may do, an admin with the same active flag may do. */
  lemma AdminPodeMais(u: Usuario, acao: Acao)
    requires TemPermissao(u.(perfil := Vendedor), acao)
    ensures TemPermissao(u.(perfil := Admin), acao)
  {
  }

  // ----- Password change -----

  /** The password given is still the one stored for the email. */
  function IsPrimeiroLogin(st: Autenticacao, email: string, senha: string): (r: bool)
    ensures r <==> email in st.senhas && st.senhas[email] == senha
  {
    SenhaConfere(st, email, senha)
  }

  /** For an active, unlocked user the default-password test and login
      agree: the password logs in exactly when it is still the stored one. */
  lemma PrimeiroLoginAutentica(st: Autenticacao, email: string, senha: string, agora: Instante, j: nat)
    requires j < |st.usuarios| && UsuarioAtivoCom(email, st.usuarios[j])
    requires !Bloqueado(st, email, agora)
    ensures IsPrimeiroLogin(st, email, senha) <==> AutenticarUsuario(st, email, senha, agora).1.Success?
  {
  }

  /** The default-password test is the gate of the password change, and a
      change to a different password ends the first login: the old password
      no longer passes the test and the new one does. */
  lemma TrocaEncerraPrimeiroLogin(st: Autenticacao, email: string, senha: string, novaSenha: string)
    ensures AlterarSenha(st, email, senha, novaSenha).1.Success? <==>
      IsPrimeiroLogin(st, email, senha) && |novaSenha| >= 6
    ensures var r := AlterarSenha(st, email, senha, novaSenha);
      r.1.Success? && novaSenha != senha ==>
        !IsPrimeiroLogin(r.0, email, senha) && IsPrimeiroLogin(r.0, email, novaSenha)
  {
  }

  const ErroSenhaAtual: string := "Senha atual incorreta"
  const ErroSenhaCurta: string := "Nova senha deve ter pelo menos 6 caracteres"

  /** Replaces the stored password when the current one matches and the new
      one has at least 6 characters; otherwise nothing changes. */
  function AlterarSenha(st: Autenticacao, email: string, senhaAtual: string, novaSenha: string)
    : (r: (Autenticacao, Result<(), string>))
    ensures !SenhaConfere(st, email, senhaAtual) ==> r == (st, Failure(ErroSenhaAtual))
    ensures SenhaConfere(st, email, senhaAtual) && |novaSenha| < 6 ==> r == (st, Failure(ErroSenhaCurta))
    ensures r.1.Success? <==> SenhaConfere(st, email, senhaAtual) && |novaSenha| >= 6
    ensures r.1.Success? ==> r.0 == st.(senhas := st.senhas[email := novaSenha])
  {
    if !SenhaConfere(st, email, senhaAtual) then (st, Failure(ErroSenhaAtual))
    else if |novaSenha| < 6 then (st, Failure(ErroSenhaCurta))
    else (st.(senhas := st.senhas[email := novaSenha]), Success(()))
  }

  /** After a password change the new password logs in (an active user, no
      lock) and the old one, if different, no longer does. */
  lemma NovaSenhaEntra(st: Autenticacao, email: string, senhaAtual: string, novaSenha: string, agora: Instante, j: nat)
    requires AlterarSenha(st, email, senhaAtual, novaSenha).1.Success?
    requires j < |st.usuarios| && UsuarioAtivoCom(email, st.usuarios[j])
    requires !Bloqueado(st, email, agora)
    ensures var st1 := AlterarSenha(st, email, senhaAtual, novaSenha).0;
      AutenticarUsuario(st1, email, novaSenha, agora).1.Success? &&
      IsPrimeiroLogin(st1, email, novaSenha) &&
      (senhaAtual != novaSenha ==> AutenticarUsuario(st1, email, senhaAtual, agora).1.Failure?)
  {
    var st1 := AlterarSenha(st, email, senhaAtual, novaSenha).0;
    assert st1.usuarios == st.usuarios && st1.tentativas == st.tentativas;
    assert UsuarioAtivoCom(email, st1.usuarios[j]);
  }
}
